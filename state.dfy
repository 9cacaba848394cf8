/**
  The state a tutoring session carries through the reader and the tutor, the
  messages they append to it, and the directory uploads and audio go to.
*/
module State {
  import opened Wrappers
  import opened Json
  import opened ModelScope

  /** The two upload kinds. */
  datatype FileKind = Document | Image

  /**
    A message in the history. A reader note is prose; the tutor's two
    records are JSON objects serialised with `json.dumps`.
  */
  datatype Message =
    | Note(content: string)
    | Completed
    | SectionRecord(audioPath: string, text: string, questions: Json, section: string)

  const AllCompleted: string := "All sections completed!"

  /**
    `json.loads(message.content)`: the object a record was serialised from;
    `None` for a note, since every note the reader writes begins with a
    letter no JSON text begins with.
  */
  function Payload(m: Message): (r: Option<Json>)
    ensures r.None? <==> m.Note?
    ensures r.Some? ==> r.value.JObj? && "completed" in r.value.fields
    ensures r.Some? ==> (r.value.fields["completed"] == JBool(true) <==> m.Completed?)
  {
    match m
    case Note(_) => None
    case Completed =>
      Some(JObj(map["completed" := JBool(true), "message" := JStr(AllCompleted)]))
    case SectionRecord(audioPath, text, questions, section) =>
      Some(JObj(map[
        "audio_path" := JStr(audioPath),
        "text" := JStr(text),
        "questions" := questions,
        "section" := JStr(section),
        "completed" := JBool(false)]))
  }

  /** The values a session state holds at one moment. */
  datatype Snapshot = Snapshot(
    messages: seq<Message>,
    filePath: string,
    extractedText: string,
    fileType: FileKind,
    currentSection: Option<nat>,
    totalSections: nat,
    userAction: string)

  /** The initial state an upload builds before running the pipeline. */
  function Initial(filePath: string, fileType: FileKind): (s: Snapshot)
    ensures s.messages == [] && s.currentSection == Some(0)
  {
    Snapshot([], filePath, "", fileType, Some(0), 0, "continue")
  }

  /** The mutable state dictionary of one session. */
  class AgentState {
    var messages: seq<Message>
    var filePath: string
    var extractedText: string
    var fileType: FileKind
    /** `None` when the key is absent or holds `None`. */
    var currentSection: Option<nat>
    var totalSections: nat
    var userAction: string

    /** The values the state holds now. */
    function Snap(): Snapshot
      reads this
    {
      Snapshot(messages, filePath, extractedText, fileType, currentSection, totalSections, userAction)
    }

    constructor (filePath: string, fileType: FileKind)
      ensures Snap() == Initial(filePath, fileType)
    {
      this.filePath := filePath;
      this.fileType := fileType;
      messages := [];
      extractedText := "";
      currentSection := Some(0);
      totalSections := 0;
      userAction := "continue";
    }
  }

  /**
    The upload directory, as the files written to it by name: the uploaded
    files and the audio of the tutoring steps.
  */
  class UploadDir {
    var files: map<string, seq<byte>>

    constructor ()
      ensures files == map[]
    {
      files := map[];
    }
  }
}
