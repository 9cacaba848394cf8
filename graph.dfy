/**
  The learning pipeline: every run reads the document, then gives one
  tutoring step, in that order and over the same state.
*/
module Graph {
  import opened Wrappers
  import opened Seqs
  import opened Json
  import opened Segmentation
  import opened ModelScope
  import opened State
  import opened ReaderAgent
  import opened TutorAgent

  /** The state after one run of the compiled graph. */
  function Pipeline(s: Snapshot, client: Client, readFile: string -> ReadOutcome, parse: string -> Option<Json>): Snapshot {
    Tutored(Read(s, client, readFile), client, parse)
  }

  /** The remote requests of one run: the reader's, then the tutor's. */
  function PipelineRequests(s: Snapshot, client: Client, readFile: string -> ReadOutcome): seq<Call> {
    var r := Read(s, client, readFile);
    ExtractRequests(s.fileType, s.filePath, client) + StepRequests(r.extractedText, r.currentSection.GetOr(0), client)
  }

  /** The upload directory after one run. */
  function PipelineFiles(files: map<string, seq<byte>>, s: Snapshot, client: Client, readFile: string -> ReadOutcome): map<string, seq<byte>> {
    var r := Read(s, client, readFile);
    AudioFiles(files, r.extractedText, r.currentSection.GetOr(0), client)
  }

  /** One run of the compiled graph: `read_document`, then `provide_tutoring`. */
  method RunGraph(state: AgentState, client: Client, disk: UploadDir,
                  readFile: string -> ReadOutcome, parse: string -> Option<Json>)
    modifies state, client, disk
    ensures state.Snap() == Pipeline(old(state.Snap()), client, readFile, parse)
    ensures client.calls == old(client.calls) + PipelineRequests(old(state.Snap()), client, readFile)
    ensures disk.files == PipelineFiles(old(disk.files), old(state.Snap()), client, readFile)
  {
    ghost var s0, calls0 := state.Snap(), client.calls;
    ProcessDocument(state, client, readFile);
    ghost var s1 := state.Snap();
    ProvidePronunciation(state, client, disk, parse);
    AppendAssoc(calls0, ExtractRequests(s0.fileType, s0.filePath, client),
                StepRequests(s1.extractedText, s1.currentSection.GetOr(0), client));
  }

  /**
    One run appends the reader's note and then the tutor's record for the
    cursor, which is zero when it was missing; it records the extracted text
    with its section count, and that count is the denominator of the label in
    the record, because both agents split the text the same way.
  */
  lemma PipelineStep(s: Snapshot, client: Client, readFile: string -> ReadOutcome, parse: string -> Option<Json>)
    ensures var t := Pipeline(s, client, readFile, parse);
      var x := Extract(s.fileType, s.filePath, client, readFile);
      var cursor := s.currentSection.GetOr(0);
      var r := Record(x.text, cursor, client, parse);
      && t.messages == s.messages + [Note(x.note)] + [r]
      && t.extractedText == x.text && t.totalSections == |Sections(x.text)|
      && t.currentSection == Some(cursor)
      && t.filePath == s.filePath && t.fileType == s.fileType && t.userAction == s.userAction
      && (r.Completed? <==> cursor >= t.totalSections)
      && (r.SectionRecord? ==> LabelParts(r.section) == Some(Progress(cursor + 1, t.totalSections)))
  {
    var x := Extract(s.fileType, s.filePath, client, readFile);
    CompletionRule(x.text, s.currentSection.GetOr(0), client, parse, map[]);
  }
}
