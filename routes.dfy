/**
  The HTTP session API: upload validation, the in-memory session store, and
  the three per-session operations (current section, answer, next section).
*/
module Routes {
  import opened Wrappers
  import opened Seqs
  import opened Text
  import opened Json
  import opened Paths
  import opened Segmentation
  import opened ModelScope
  import opened State
  import opened ReaderAgent
  import opened TutorAgent
  import opened Graph

  /** An `HTTPException`: a status code and its detail. */
  datatype HttpError = HttpError(status: nat, detail: string)

  const NotFound: HttpError := HttpError(404, "Session not found")
  const TooLarge: HttpError := HttpError(400, "File too large")
  const Unsupported: HttpError := HttpError(400, "Unsupported file type")
  const NoContent: HttpError := HttpError(400, "No content available")
  /** What an exception the handler does not catch comes to. */
  const ServerError: HttpError := HttpError(500, "Internal Server Error")

  const UploadDirPath: string := "data/uploads"

  /** What an accepted upload is: its kind and the lowercased extension its stored name keeps. */
  datatype Accepted = Accepted(kind: FileKind, ext: string)

  datatype UploadReply = UploadReply(fileId: string, fileType: FileKind, message: string)

  datatype Feedback = Feedback(isCorrect: bool, explanation: string, nextAction: string)

  /** The kind an extension stands for, if it is one of the six accepted ones. */
  function KindOf(ext: string): (r: Option<FileKind>)
    ensures r.Some? ==> |ext| >= 3 && ext[0] == '.' && forall i :: 1 <= i < |ext| ==> 'a' <= ext[i] <= 'z'
  {
    if ext == ".jpg" || ext == ".jpeg" || ext == ".png" || ext == ".bmp" then Some(Image)
    else if ext == ".txt" || ext == ".md" then Some(Document)
    else None
  }

  /** The checks of `upload_file` before anything is written: the size first, then the lowercased suffix. */
  function ValidateUpload(filename: string, size: nat, maxSize: nat): (r: Result<Accepted, HttpError>)
    ensures r.Ok? ==> KindOf(r.value.ext) == Some(r.value.kind)
    ensures r.Ok? ==> r.value.ext == Lower(Suffix(filename))
    ensures size <= maxSize ==> (r.Ok? <==> KindOf(Lower(Suffix(filename))).Some?)
    ensures r.Err? ==> r.error == TooLarge || r.error == Unsupported
  {
    if size > maxSize then Err(TooLarge)
    else
      var ext := Lower(Suffix(filename));
      match KindOf(ext)
      case Some(kind) => Ok(Accepted(kind, ext))
      case None => Err(Unsupported)
  }

  /** `str(Path(upload_dir) / f"{file_id}{file_ext}")`. */
  function UploadPath(fileId: string, ext: string): string {
    UploadDirPath + "/" + fileId + ext
  }

  /**
    Python's `int(s)` on text: surrounding whitespace, an optional sign and
    ASCII digits; anything else raises.
  */
  function ParseInt(s: string): (r: Option<int>)
    ensures r.Some? ==> Strip(s) != ""
  {
    ParseSigned(Strip(s))
  }

  /** `int` on stripped text: an optional sign, then at least one digit. */
  function ParseSigned(t: string): Option<int> {
    if t != "" && (t[0] == '-' || t[0] == '+') then
      match ParseNat(t[1..])
      case None => None
      case Some(n) =>
        var v: int := n;
        Some(if t[0] == '-' then -v else v)
    else
      match ParseNat(t)
      case None => None
      case Some(n) => Some(n)
  }

  /**
    What `get_current_section` answers for a history: nothing without
    messages, else the last message parsed, or the error object when it does
    not parse.
  */
  function View(messages: seq<Message>): (r: Result<Json, HttpError>)
    ensures r.Err? <==> messages == []
    ensures r.Err? ==> r.error == NoContent
    ensures r.Ok? ==> r.value.JObj?
  {
    if messages == [] then Err(NoContent)
    else
      match Payload(messages[|messages| - 1])
      case Some(data) => Ok(data)
      case None => Ok(JObj(map["error" := JStr("Failed to parse session data")]))
  }

  /** The size is checked first: too large is rejected whatever the name, and below the limit only the name counts. */
  lemma SizeCheckedFirst(filename: string, size: nat, maxSize: nat)
    ensures ValidateUpload(filename, size, maxSize) == Err(TooLarge) <==> size > maxSize
    ensures size <= maxSize ==> ValidateUpload(filename, size, maxSize) == ValidateUpload(filename, 0, maxSize)
  {
  }

  /**
    A name whose last component is `stem.e`, under any directory, is
    classified by `e` lowercased: an image or a document when that is one of
    the six accepted extensions, and unsupported otherwise; the stored name
    keeps the lowercased extension. The stem may hold further dots.
  */
  lemma UploadKinds(dir: string, stem: string, e: string, size: nat, maxSize: nat)
    requires dir == "" || dir[|dir| - 1] == '/'
    requires stem != "" && '/' !in stem
    requires e != "" && '.' !in e && '/' !in e
    requires size <= maxSize
    ensures var ext := "." + Lower(e);
      var r := ValidateUpload(dir + stem + "." + e, size, maxSize);
      && (KindOf(ext).Some? ==> r == Ok(Accepted(KindOf(ext).value, ext)))
      && (KindOf(ext).None? ==> r == Err(Unsupported))
  {
    LoweredSuffixOfName(dir, stem, e);
    ValidateBySuffix(dir + stem + "." + e, size, maxSize, "." + Lower(e));
  }

  /** The lowercased suffix of `dir + stem + "." + e`. */
  lemma LoweredSuffixOfName(dir: string, stem: string, e: string)
    requires dir == "" || dir[|dir| - 1] == '/'
    requires stem != "" && '/' !in stem
    requires e != "" && '.' !in e && '/' !in e
    ensures Lower(Suffix(dir + stem + "." + e)) == "." + Lower(e)
  {
    SuffixOfName(dir, stem, e);
    LowerConcat(".", e);
    assert Lower(".") == ".";
  }

  /** Within the limit, the lowercased suffix alone decides. */
  lemma ValidateBySuffix(filename: string, size: nat, maxSize: nat, ext: string)
    requires size <= maxSize && Lower(Suffix(filename)) == ext
    ensures var r := ValidateUpload(filename, size, maxSize);
      && (KindOf(ext).Some? ==> r == Ok(Accepted(KindOf(ext).value, ext)))
      && (KindOf(ext).None? ==> r == Err(Unsupported))
  {
  }

  /** An upper-case image extension is accepted and stored lowercased. */
  lemma UpperCaseImageAccepted(size: nat, maxSize: nat)
    requires size <= maxSize
    ensures ValidateUpload("x.PNG", size, maxSize) == Ok(Accepted(Image, ".png"))
  {
    var ext := "." + Lower("PNG");
    assert ext == ".png" by {
      assert Lower("PNG")[0] == 'p' && Lower("PNG")[1] == 'n' && Lower("PNG")[2] == 'g';
    }
    assert KindOf(ext) == Some(Image);
    assert "" + "x" + "." + "PNG" == "x.PNG";
    UploadKinds("", "x", "PNG", size, maxSize);
  }

  /**
    A trailing slash, or a trailing `/.`, changes nothing: the name is
    classified as pathlib reads it, so "x.png/" is accepted as "x.png" is.
  */
  lemma TrailingSlashIgnored(filename: string, size: nat, maxSize: nat)
    ensures ValidateUpload(filename + "/", size, maxSize) == ValidateUpload(filename, size, maxSize)
    ensures ValidateUpload(filename + "/.", size, maxSize) == ValidateUpload(filename, size, maxSize)
  {
    SuffixIgnoresTrailing(filename);
  }

  /**
    The stored copy of an accepted image is named so that the OCR request
    states the image's own format: "jpeg" for `.jpg`, else the extension
    without its dot.
  */
  lemma StoredImageSubtype(filename: string, size: nat, maxSize: nat, fileId: string)
    requires ValidateUpload(filename, size, maxSize).Ok?
    requires ValidateUpload(filename, size, maxSize).value.kind == Image
    requires fileId != "" && '/' !in fileId && HasNonDot(fileId)
    ensures var ext := ValidateUpload(filename, size, maxSize).value.ext;
      ImageSubtype(UploadPath(fileId, ext)) == if ext == ".jpg" then "jpeg" else ext[1..]
  {
    StoredSubtype(ValidateUpload(filename, size, maxSize).value.ext, fileId);
  }

  /** The same for any image extension, whatever name it came from. */
  lemma StoredSubtype(ext: string, fileId: string)
    requires KindOf(ext) == Some(Image)
    requires fileId != "" && '/' !in fileId && HasNonDot(fileId)
    ensures ImageSubtype(UploadPath(fileId, ext)) == if ext == ".jpg" then "jpeg" else ext[1..]
  {
    var e := ext[1..];
    ImageExtension(ext);
    assert UploadPath(fileId, ext) == (UploadDirPath + "/") + fileId + "." + e;
    SubtypeOfName(UploadDirPath + "/", fileId, e);
  }

  /** An image extension is a dot and a lowercase name without dots or slashes. */
  lemma ImageExtension(ext: string)
    requires KindOf(ext) == Some(Image)
    ensures ext == "." + ext[1..] && '.' !in ext[1..] && '/' !in ext[1..] && Lower(ext[1..]) == ext[1..]
  {
    var e := ext[1..];
    assert forall i :: 0 <= i < |e| ==> 'a' <= e[i] <= 'z';
  }

  /** A name without a dot has no suffix and is refused. */
  lemma NoDotUnsupported(filename: string, size: nat, maxSize: nat)
    requires '.' !in filename && size <= maxSize
    ensures ValidateUpload(filename, size, maxSize) == Err(Unsupported)
  {
    NoDotNoExtension(filename);
  }

  /** A hidden file such as `.txt` has no suffix either, so it is refused too. */
  lemma HiddenFileUnsupported(name: string, size: nat, maxSize: nat)
    requires '.' !in name && '/' !in name && size <= maxSize
    ensures ValidateUpload("." + name, size, maxSize) == Err(Unsupported)
  {
    var p := "." + name;
    LastIndexAfter("", '.', name);
    assert "" + ['.'] + name == p;
    assert '/' !in p by {
      forall i | 0 <= i < |p| ensures p[i] != '/' {
        if i > 0 { assert p[i] == name[i - 1]; }
      }
    }
    assert NameStart(p) == 0;
    assert p[0..] == p;
  }

  /** Python's `str(i)` for an integer. */
  function IntText(i: int): string {
    if i < 0 then "-" + Decimal(-i) else Decimal(i)
  }

  /** `int` reads back what `str` writes, whatever whitespace surrounds it. */
  lemma ParseIntRoundTrip(i: int, left: string, right: string)
    requires AllSpace(left) && AllSpace(right)
    ensures ParseInt(left + IntText(i) + right) == Some(i)
  {
    IntTextTrimmed(i);
    StripPadded(left, IntText(i), right);
    SignedRoundTrip(i);
  }

  /** What `str` writes starts with a sign or a digit and ends with a digit. */
  lemma IntTextTrimmed(i: int)
    ensures Trimmed(IntText(i))
  {
    var t := IntText(i);
    var d := Decimal(if i < 0 then -i else i);
    assert IsDigit(d[|d| - 1]) && t[|t| - 1] == d[|d| - 1];
    assert IsDigit(d[0]);
  }

  lemma SignedRoundTrip(i: int)
    ensures ParseSigned(IntText(i)) == Some(i)
  {
    var t := IntText(i);
    var d := Decimal(if i < 0 then -i else i);
    DecimalRoundTrip(if i < 0 then -i else i);
    if i < 0 {
      assert t[1..] == d;
    } else {
      assert IsDigit(d[0]);
    }
  }

  /** Blank text does not parse. */
  lemma BlankIsNotInt(s: string)
    requires AllSpace(s)
    ensures ParseInt(s).None?
  {
    StripEmpty(s);
  }

  /** Text holding a character other than a sign, a digit or whitespace does not parse. */
  lemma StrayCharIsNotInt(s: string, i: nat)
    requires i < |s| && !IsSpace(s[i]) && !IsDigit(s[i]) && s[i] != '-' && s[i] != '+'
    ensures ParseInt(s).None?
  {
    var k := StripKeeps(s, i);
    StrayCharIsNotSigned(Strip(s), k);
  }

  lemma StrayCharIsNotSigned(t: string, k: nat)
    requires k < |t| && !IsDigit(t[k]) && t[k] != '-' && t[k] != '+'
    ensures ParseSigned(t).None?
  {
    if t[0] == '-' || t[0] == '+' {
      assert t[1..][k - 1] == t[k];
    }
  }

  /** A history ending in a record shows that record, whose completion flag says which kind it is. */
  lemma ViewOfRecord(messages: seq<Message>, m: Message)
    requires !m.Note?
    ensures var v := View(messages + [m]);
      && v.Ok? && "error" !in v.value.fields && "completed" in v.value.fields
      && v.value.fields["completed"] == JBool(m.Completed?)
  {
    assert (messages + [m])[|messages + [m]| - 1] == m;
  }

  /**
    After any run the current view is the tutor's record, never the error
    object: it reports completion exactly when the cursor has passed the last
    section.
  */
  lemma ViewAfterRun(s: Snapshot, client: Client, readFile: string -> ReadOutcome, parse: string -> Option<Json>)
    ensures var t := Pipeline(s, client, readFile, parse);
      var v := View(t.messages);
      && v.Ok? && "error" !in v.value.fields && "completed" in v.value.fields
      && t.currentSection.Some?
      && v.value.fields["completed"] == JBool(t.currentSection.value >= t.totalSections)
  {
    PipelineStep(s, client, readFile, parse);
    var x := Extract(s.fileType, s.filePath, client, readFile);
    ViewOfRecord(s.messages + [Note(x.note)], Record(x.text, s.currentSection.GetOr(0), client, parse));
  }

  /**
    The session an upload stores holds the reader's note and the record of
    the first section, which always exists, so an upload never reports
    completion.
  */
  lemma FirstRun(path: string, kind: FileKind, client: Client, readFile: string -> ReadOutcome, parse: string -> Option<Json>)
    ensures var t := Pipeline(Initial(path, kind), client, readFile, parse);
      var x := Extract(kind, path, client, readFile);
      && t.messages == [Note(x.note), Record(x.text, 0, client, parse)]
      && t.messages[1].SectionRecord? && t.messages[1].audioPath == AudioName(0)
      && t.currentSection == Some(0) && t.userAction == "continue" && t.filePath == path && t.fileType == kind
  {
    var x := Extract(kind, path, client, readFile);
    PipelineStep(Initial(path, kind), client, readFile, parse);
    Pair(Note(x.note), Record(x.text, 0, client, parse));
    SectionCountPositive(x.text);
    CompletionRule(x.text, 0, client, parse, map[]);
  }

  /**
    `next_section` moves the cursor on by exactly one and appends a fresh
    note and the record for the new cursor, keeping the history before them.
  */
  lemma NextRun(s: Snapshot, client: Client, readFile: string -> ReadOutcome, parse: string -> Option<Json>)
    ensures var t := Pipeline(Advanced(s), client, readFile, parse);
      var cursor := s.currentSection.GetOr(0) + 1;
      && t.currentSection == Some(cursor) && t.userAction == "next_section"
      && |t.messages| == |s.messages| + 2 && t.messages[..|s.messages|] == s.messages
      && t.messages[|s.messages|].Note?
      && t.messages[|s.messages| + 1] == Record(t.extractedText, cursor, client, parse)
  {
    var a := Advanced(s);
    var cursor := s.currentSection.GetOr(0) + 1;
    assert a.currentSection == Some(cursor) && a.messages == s.messages;
    assert a.fileType == s.fileType && a.filePath == s.filePath;
    var x := Extract(s.fileType, s.filePath, client, readFile);
    PipelineStep(a, client, readFile, parse);
    PrefixOfAppend(s.messages, Note(x.note), Record(x.text, cursor, client, parse));
  }

  /** The in-memory `sessions` dictionary, from file id to session state. */
  class SessionStore {
    var sessions: map<string, AgentState>
    const maxFileSize: nat

    /** Two ids never share one state, so a step on one session leaves the others alone. */
    ghost predicate Valid()
      reads this
    {
      forall a, b | a in sessions && b in sessions && a != b :: sessions[a] != sessions[b]
    }

    constructor (maxFileSize: nat)
      ensures Valid()
      ensures sessions == map[] && this.maxFileSize == maxFileSize
    {
      sessions := map[];
      this.maxFileSize := maxFileSize;
    }

    /**
      `upload_file`, with the content's bytes, the fresh id and the remote
      services as inputs: validate, write the file, build the initial state,
      run the pipeline once and store the result under the id.
    */
    method Upload(filename: string, content: seq<byte>, fileId: string, client: Client, disk: UploadDir,
                  readFile: string -> ReadOutcome, parse: string -> Option<Json>)
      returns (r: Result<UploadReply, HttpError>)
      requires Valid()
      modifies this, client, disk
      ensures Valid()
      ensures match ValidateUpload(filename, |content|, maxFileSize)
        case Err(e) =>
          && r == Err(e) && sessions == old(sessions)
          && client.calls == old(client.calls) && disk.files == old(disk.files)
        case Ok(a) =>
          && r == Ok(UploadReply(fileId, a.kind, "File uploaded and processed successfully"))
          && fileId in sessions && fresh(sessions[fileId])
          && sessions == old(sessions)[fileId := sessions[fileId]]
          && var start := Initial(UploadPath(fileId, a.ext), a.kind);
             && sessions[fileId].Snap() == Pipeline(start, client, readFile, parse)
             && client.calls == old(client.calls) + PipelineRequests(start, client, readFile)
             && disk.files == PipelineFiles(old(disk.files)[fileId + a.ext := content], start, client, readFile)
    {
      var v := ValidateUpload(filename, |content|, maxFileSize);
      if v.Err? {
        return Err(v.error);
      }
      Admit(v.value, content, fileId, client, disk, readFile, parse);
      r := Ok(UploadReply(fileId, v.value.kind, "File uploaded and processed successfully"));
    }

    /** The successful branch of `upload_file`: a fresh session, run once, stored under its id. */
    method Admit(a: Accepted, content: seq<byte>, fileId: string, client: Client, disk: UploadDir,
                 readFile: string -> ReadOutcome, parse: string -> Option<Json>)
      requires Valid()
      modifies this, client, disk
      ensures Valid()
      ensures fileId in sessions && fresh(sessions[fileId])
      ensures sessions == old(sessions)[fileId := sessions[fileId]]
      ensures var start := Initial(UploadPath(fileId, a.ext), a.kind);
        && sessions[fileId].Snap() == Pipeline(start, client, readFile, parse)
        && client.calls == old(client.calls) + PipelineRequests(start, client, readFile)
        && disk.files == PipelineFiles(old(disk.files)[fileId + a.ext := content], start, client, readFile)
    {
      disk.files := disk.files[fileId + a.ext := content];
      var state := new AgentState(UploadPath(fileId, a.ext), a.kind);
      Store(fileId, state);
      RunGraph(state, client, disk, readFile, parse);
    }

    /** Stores under an id a state that no session holds yet. */
    method Store(fileId: string, state: AgentState)
      requires Valid() && forall k | k in sessions :: sessions[k] != state
      modifies this
      ensures Valid() && sessions == old(sessions)[fileId := state]
    {
      sessions := sessions[fileId := state];
    }

    /** `get_current_section`: reads the store and changes nothing. */
    method Current(fileId: string) returns (r: Result<Json, HttpError>)
      ensures fileId !in sessions ==> r == Err(NotFound)
      ensures fileId in sessions ==> r == View(sessions[fileId].messages)
    {
      if fileId !in sessions {
        return Err(NotFound);
      }
      r := View(sessions[fileId].messages);
    }

    /**
      `submit_answer`: the id must name a session and the question id must
      parse as an integer; the session's state is only read. The response
      model takes the explanation as a string, so a chat answer of another
      JSON type ends the request with a server error.
    */
    method SubmitAnswer(fileId: string, questionId: string, answer: string, client: Client)
      returns (r: Result<Feedback, HttpError>)
      modifies client
      ensures fileId !in sessions ==> r == Err(NotFound) && client.calls == old(client.calls)
      ensures fileId in sessions && ParseInt(questionId).None? ==> r == Err(ServerError) && client.calls == old(client.calls)
      ensures fileId in sessions && ParseInt(questionId).Some? ==>
        var messages, id := sessions[fileId].messages, ParseInt(questionId).value;
        var e := Evaluated(messages, answer, id, client);
        && r == (if e.explanation.JStr? then Ok(Feedback(e.isCorrect, e.explanation.s, "continue")) else Err(ServerError))
        && client.calls == old(client.calls) + GradingRequests(messages, answer, id)
    {
      if fileId !in sessions {
        return Err(NotFound);
      }
      var id := ParseInt(questionId);
      if id.None? {
        return Err(ServerError);
      }
      var e := EvaluateAnswer(sessions[fileId], client, answer, id.value);
      if !e.explanation.JStr? {
        return Err(ServerError);
      }
      r := Ok(Feedback(e.isCorrect, e.explanation.s, "continue"));
    }

    /**
      `next_section`: mark the action, move the cursor on by one and run the
      pipeline again on the same session state.
    */
    method Next(fileId: string, client: Client, disk: UploadDir,
                readFile: string -> ReadOutcome, parse: string -> Option<Json>)
      returns (r: Result<string, HttpError>)
      requires Valid()
      modifies (if fileId in sessions then {sessions[fileId]} else {}), client, disk
      ensures Valid() && sessions == old(sessions)
      ensures fileId !in sessions ==>
        r == Err(NotFound) && client.calls == old(client.calls) && disk.files == old(disk.files)
      ensures fileId in sessions ==>
        var state := sessions[fileId];
        var start := Advanced(old(state.Snap()));
        && r == Ok("Moved to next section")
        && state.Snap() == Pipeline(start, client, readFile, parse)
        && client.calls == old(client.calls) + PipelineRequests(start, client, readFile)
        && disk.files == PipelineFiles(old(disk.files), start, client, readFile)
      ensures forall k | k in sessions && k != fileId :: unchanged(sessions[k])
    {
      if fileId !in sessions {
        return Err(NotFound);
      }
      var state := sessions[fileId];
      Advance(state);
      RunGraph(state, client, disk, readFile, parse);
      r := Ok("Moved to next section");
    }
  }

  /** The state `next_section` hands to the pipeline. */
  function Advanced(s: Snapshot): Snapshot {
    s.(userAction := "next_section", currentSection := Some(s.currentSection.GetOr(0) + 1))
  }

  /** The two updates `next_section` makes before running the pipeline. */
  method Advance(state: AgentState)
    modifies state
    ensures state.Snap() == Advanced(old(state.Snap()))
  {
    state.userAction := "next_section";
    var current := state.currentSection.GetOr(0);
    state.currentSection := Some(current + 1);
  }
}
