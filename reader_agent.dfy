/**
  The document reader: extract the text of an uploaded file, by OCR for an
  image and by reading it for a document, record it with its section count,
  and append one note.
*/
module ReaderAgent {
  import opened Wrappers
  import opened Text
  import opened Json
  import opened Segmentation
  import opened ModelScope
  import opened State

  /** What reading a document file as UTF-8 comes to. */
  datatype ReadOutcome = FileText(text: string) | ReadRaised(message: string)

  /** The text the reader extracts and the note it appends. */
  datatype Extraction = Extraction(text: string, note: string)

  function Extract(kind: FileKind, path: string, client: Client, readFile: string -> ReadOutcome): Extraction {
    match kind
    case Image =>
      var t := client.OcrFor(path).text;
      Extraction(t, "OCR completed. Extracted " + Decimal(|t|) + " characters.")
    case Document =>
      match readFile(path)
      case FileText(t) => Extraction(t, "Document read. Total " + Decimal(|t|) + " characters.")
      case ReadRaised(e) => Extraction("Error reading file: " + e, "Error: " + e)
  }

  /** Only an image costs a remote request. */
  function ExtractRequests(kind: FileKind, path: string, client: Client): seq<Call> {
    if kind == Image then client.OcrRequests(path) else []
  }

  /** The state after `process_document`. */
  function Read(s: Snapshot, client: Client, readFile: string -> ReadOutcome): Snapshot {
    var x := Extract(s.fileType, s.filePath, client, readFile);
    s.(messages := s.messages + [Note(x.note)],
       extractedText := x.text,
       totalSections := |Sections(x.text)|,
       currentSection := if s.currentSection.None? then Some(0) else s.currentSection)
  }

  /** `process_document`. */
  method ProcessDocument(state: AgentState, client: Client, readFile: string -> ReadOutcome)
    modifies state, client
    ensures state.Snap() == Read(old(state.Snap()), client, readFile)
    ensures client.calls == old(client.calls) + ExtractRequests(old(state.fileType), old(state.filePath), client)
  {
    var x := ExtractText(state.fileType, state.filePath, client, readFile);
    StoreExtraction(state, x);
  }

  /** The state updates of `process_document` once the text is known. */
  method StoreExtraction(state: AgentState, x: Extraction)
    modifies state
    ensures state.extractedText == x.text && state.messages == old(state.messages) + [Note(x.note)]
    ensures state.totalSections == |Sections(x.text)|
    ensures state.currentSection == if old(state.currentSection).None? then Some(0) else old(state.currentSection)
    ensures state.filePath == old(state.filePath) && state.fileType == old(state.fileType)
    ensures state.userAction == old(state.userAction)
  {
    state.messages := state.messages + [Note(x.note)];
    state.extractedText := x.text;
    var sections := Sections(x.text);
    state.totalSections := |sections|;
    if state.currentSection.None? {
      state.currentSection := Some(0);
    }
  }

  /**
    The reader appends exactly one note, which no JSON parser accepts,
    records the extracted text with its section count, keeps a cursor that is
    set and sets a missing one to zero, and leaves the path, the type and the
    requested action alone.
  */
  lemma ReaderStep(s: Snapshot, client: Client, readFile: string -> ReadOutcome)
    ensures var t := Read(s, client, readFile);
      && |t.messages| == |s.messages| + 1 && t.messages[..|s.messages|] == s.messages
      && t.totalSections == |Sections(t.extractedText)| >= 1
      && t.currentSection == (if s.currentSection.None? then Some(0) else s.currentSection)
      && t.filePath == s.filePath && t.fileType == s.fileType && t.userAction == s.userAction
      && t.messages[|s.messages|].Note?
      && (var note := t.messages[|s.messages|].content; note != "" && !CanBeginJson(note[0]))
  {
    NoteIsNotJson(s.fileType, s.filePath, client, readFile);
    SectionCountPositive(Extract(s.fileType, s.filePath, client, readFile).text);
    var t := Read(s, client, readFile);
    assert t.messages[..|s.messages|] == s.messages;
  }

  /** The extracted text is the OCR text, the file's text, or the read error. */
  lemma ExtractedText(kind: FileKind, path: string, client: Client, readFile: string -> ReadOutcome)
    ensures var t := Extract(kind, path, client, readFile).text;
      && (kind == Image ==> t == client.OcrFor(path).text)
      && (kind == Document && readFile(path).FileText? ==> t == readFile(path).text)
      && (kind == Document && readFile(path).ReadRaised? ==> t == "Error reading file: " + readFile(path).message)
  {
  }

  /** The branch of `process_document` on the file type. */
  method ExtractText(kind: FileKind, path: string, client: Client, readFile: string -> ReadOutcome)
    returns (x: Extraction)
    modifies client
    ensures x == Extract(kind, path, client, readFile)
    ensures client.calls == old(client.calls) + ExtractRequests(kind, path, client)
  {
    if kind == Image {
      var ocr := client.OcrImage(path);
      x := Extraction(ocr.text, "OCR completed. Extracted " + Decimal(|ocr.text|) + " characters.");
    } else {
      match readFile(path)
      case FileText(t) =>
        x := Extraction(t, "Document read. Total " + Decimal(|t|) + " characters.");
      case ReadRaised(e) =>
        x := Extraction("Error reading file: " + e, "Error: " + e);
    }
  }

  /** Every note the reader writes fails to parse as JSON: its first letter cannot begin a JSON text. */
  lemma NoteIsNotJson(kind: FileKind, path: string, client: Client, readFile: string -> ReadOutcome)
    ensures var note := Extract(kind, path, client, readFile).note;
      note != "" && !CanBeginJson(note[0])
  {
  }

  /** The section count the reader records is at least one, and one for a whitespace-only text. */
  lemma SectionCountPositive(text: string)
    ensures |Sections(text)| >= 1
    ensures AllSpace(text) ==> |Sections(text)| == 1
  {
    SectionsCases(text);
  }
}
