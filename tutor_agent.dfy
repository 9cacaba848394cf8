/**
  The pronunciation tutor: one tutoring step over the current section
  (speech, questions, one record appended to the history), the cleaning of
  the chat answer before it is parsed as questions, and the grading of an
  answer against the last record.
*/
module TutorAgent {
  import opened Wrappers
  import opened Text
  import opened Json
  import opened Segmentation
  import opened ModelScope
  import opened State

  /** The audio file name of section `idx`. */
  function AudioName(idx: nat): string {
    "audio_" + Decimal(idx) + ".wav"
  }

  /** The progress label of section `idx` out of `total`, counting from one. */
  function SectionLabel(idx: nat, total: nat): string {
    Decimal(idx + 1) + "/" + Decimal(total)
  }

  datatype Progress = Progress(position: nat, count: nat)

  /** The two numbers of a progress label, when it has exactly that shape. */
  function LabelParts(progress: string): Option<Progress> {
    var parts := Split(progress, "/");
    if |parts| == 2 && ParseNat(parts[0]).Some? && ParseNat(parts[1]).Some? then
      Some(Progress(ParseNat(parts[0]).value, ParseNat(parts[1]).value))
    else None
  }

  /** The label reads back as the section's position and the section count. */
  lemma LabelRoundTrip(idx: nat, total: nat)
    ensures LabelParts(SectionLabel(idx, total)) == Some(Progress(idx + 1, total))
  {
    var a, b := Decimal(idx + 1), Decimal(total);
    assert '/' !in a by {
      forall i | 0 <= i < |a| ensures a[i] != '/' { assert IsDigit(a[i]); }
    }
    assert '/' !in b by {
      forall i | 0 <= i < |b| ensures b[i] != '/' { assert IsDigit(b[i]); }
    }
    SplitAtFirst(a, '/', b);
    SplitWithoutSeparator(b, '/');
    DecimalRoundTrip(idx + 1);
    DecimalRoundTrip(total);
  }

  /** Different sections get different audio files. */
  lemma AudioNameInjective(i: nat, j: nat)
    requires AudioName(i) == AudioName(j)
    ensures i == j
  {
    var n, m := AudioName(i), AudioName(j);
    assert n[6..|n| - 4] == Decimal(i);
    assert m[6..|m| - 4] == Decimal(j);
    DecimalRoundTrip(i);
    DecimalRoundTrip(j);
  }

  /**
    The chat answer made ready for `json.loads`: strip, drop a leading
    "```json", then a leading "```", then a trailing "```", and strip again.
  */
  function Cleaned(response: string): (r: string)
    ensures Trimmed(r)
  {
    Strip(DropClose(DropOpen(DropJsonOpen(Strip(response)))))
  }

  function DropJsonOpen(s: string): string {
    if StartsWith(s, "```json") then s[7..] else s
  }

  function DropOpen(s: string): string {
    if StartsWith(s, "```") then s[3..] else s
  }

  function DropClose(s: string): string {
    if EndsWith(s, "```") then s[..|s| - 3] else s
  }

  /** Each fence removal keeps a substring. */
  lemma DropsContained(s: string)
    ensures Contains(s, DropJsonOpen(s)) && Contains(s, DropOpen(s)) && Contains(s, DropClose(s))
  {
    ContainsSlice(s, 0, |s|);
    assert s[0..|s|] == s;
    if |s| >= 3 {
      ContainsSlice(s, 3, |s|);
      assert s[3..|s|] == s[3..];
      ContainsSlice(s, 0, |s| - 3);
    }
    if |s| >= 7 {
      ContainsSlice(s, 7, |s|);
      assert s[7..|s|] == s[7..];
    }
  }

  /** The cleaning as the source performs it, one reassignment at a time. */
  method CleanResponse(response: string) returns (cleaned: string)
    ensures cleaned == Cleaned(response)
  {
    cleaned := Strip(response);
    ghost var c0 := cleaned;
    if StartsWith(cleaned, "```json") {
      cleaned := cleaned[7..];
    }
    assert cleaned == DropJsonOpen(c0);
    ghost var c1 := cleaned;
    if StartsWith(cleaned, "```") {
      cleaned := cleaned[3..];
    }
    assert cleaned == DropOpen(c1);
    ghost var c2 := cleaned;
    if EndsWith(cleaned, "```") {
      cleaned := cleaned[..|cleaned| - 3];
    }
    assert cleaned == DropClose(c2);
    cleaned := Strip(cleaned);
  }

  /** Cleaning keeps a contiguous piece of the answer. */
  lemma CleanedIsSubstring(response: string)
    ensures Contains(response, Cleaned(response))
  {
    var c0 := Strip(response);
    var c1 := DropJsonOpen(c0);
    var c2 := DropOpen(c1);
    var c3 := DropClose(c2);
    DropsContained(c0);
    DropsContained(c1);
    DropsContained(c2);
    StripContained(response);
    StripContained(c3);
    ContainsTransitive(response, c0, c1);
    ContainsTransitive(response, c1, c2);
    ContainsTransitive(response, c2, c3);
    ContainsTransitive(response, c3, Cleaned(response));
  }

  /** An answer without fences is only stripped. */
  lemma CleanedWithoutFences(response: string)
    requires !StartsWith(Strip(response), "```") && !EndsWith(Strip(response), "```")
    ensures Cleaned(response) == Strip(response)
  {
    var c0 := Strip(response);
    JsonOpenIsOpen(c0);
    StripIdempotent(response);
  }

  lemma JsonOpenIsOpen(s: string)
    ensures StartsWith(s, "```json") ==> StartsWith(s, "```")
  {
    if StartsWith(s, "```json") {
      assert s[..3] == s[..7][..3];
    }
  }

  /** A JSON text fenced as ```json ... ``` comes back out of its fence. */
  lemma CleanedJsonFence(payload: string)
    requires Trimmed(payload)
    ensures Cleaned("```json\n" + payload + "\n```") == payload
  {
    var body := "\n" + payload + "\n";
    var s := "```json" + (body + "```");
    calc {
      Cleaned("```json\n" + payload + "\n```");
      { JsonFenceShape(payload); }
      Cleaned(s);
      Strip(DropClose(DropOpen(DropJsonOpen(Strip(s)))));
      { FenceIsTrimmed(s); }
      Strip(DropClose(DropOpen(DropJsonOpen(s))));
      { DropJsonOpenOf(body + "```"); }
      Strip(DropClose(DropOpen(body + "```")));
      { NotOpen(body + "```"); }
      Strip(DropClose(body + "```"));
      { DropCloseOf(body); }
      Strip(body);
      { StripNewlines(payload); }
      payload;
    }
  }

  lemma JsonFenceShape(payload: string)
    ensures "```json\n" + payload + "\n```" == "```json" + (("\n" + payload + "\n") + "```")
  {
  }

  /** A JSON text fenced as ``` ... ``` comes back out of its fence. */
  lemma CleanedPlainFence(payload: string)
    requires Trimmed(payload)
    ensures Cleaned("```\n" + payload + "\n```") == payload
  {
    var body := "\n" + payload + "\n";
    var s := "```" + (body + "```");
    calc {
      Cleaned("```\n" + payload + "\n```");
      { PlainFenceShape(payload); }
      Cleaned(s);
      Strip(DropClose(DropOpen(DropJsonOpen(Strip(s)))));
      { FenceIsTrimmed(s); }
      Strip(DropClose(DropOpen(DropJsonOpen(s))));
      { NotJsonOpen(body + "```"); }
      Strip(DropClose(DropOpen(s)));
      { DropOpenOf(body + "```"); }
      Strip(DropClose(body + "```"));
      { DropCloseOf(body); }
      Strip(body);
      { StripNewlines(payload); }
      payload;
    }
  }

  lemma PlainFenceShape(payload: string)
    ensures "```\n" + payload + "\n```" == "```" + (("\n" + payload + "\n") + "```")
  {
  }

  lemma StripNewlines(payload: string)
    requires Trimmed(payload)
    ensures Strip("\n" + payload + "\n") == payload
  {
    assert IsSpace('\n');
    StripPadded("\n", payload, "\n");
  }

  lemma DropJsonOpenOf(rest: string)
    ensures DropJsonOpen("```json" + rest) == rest
  {
    var s := "```json" + rest;
    assert s[..7] == "```json";
    assert s[7..] == rest;
  }

  lemma DropOpenOf(rest: string)
    ensures DropOpen("```" + rest) == rest
  {
    var s := "```" + rest;
    assert s[..3] == "```";
    assert s[3..] == rest;
  }

  /** A text starting with a newline opens no fence. */
  lemma NotOpen(rest: string)
    requires rest != "" && rest[0] == '\n'
    ensures DropOpen(rest) == rest
  {
    if |rest| >= 3 {
      assert rest[..3][0] == '\n';
    }
  }

  /** "```" followed by a newline is not "```json". */
  lemma NotJsonOpen(rest: string)
    requires rest != "" && rest[0] == '\n'
    ensures DropJsonOpen("```" + rest) == "```" + rest
  {
    var s := "```" + rest;
    assert s[3] == '\n';
    if |s| >= 7 {
      assert s[..7][3] == '\n';
    }
  }

  lemma FenceIsTrimmed(s: string)
    requires |s| >= 1 && s[0] == '`' && s[|s| - 1] == '`'
    ensures Strip(s) == s
  {
    StripTrimmed(s);
  }

  lemma DropCloseOf(body: string)
    ensures DropClose(body + "```") == body
  {
    var s := body + "```";
    assert s[|s| - 3..] == "```";
    assert s[..|s| - 3] == body;
  }

  /** The two questions returned when the chat answer does not parse. */
  const FallbackQuestions: Json := JArr([
    JObj(map[
      "question" := JStr("这段文字的主要内容是什么？"),
      "options" := JArr([JStr("选项A"), JStr("选项B"), JStr("选项C"), JStr("选项D")]),
      "correct_answer" := JStr("选项A"),
      "explanation" := JStr("这段文字主要讨论了...")]),
    JObj(map[
      "question" := JStr("文中提到的关键信息是？"),
      "options" := JArr([JStr("信息1"), JStr("信息2"), JStr("信息3"), JStr("信息4")]),
      "correct_answer" := JStr("信息1"),
      "explanation" := JStr("根据文本内容...")])
  ])

  /** The fallback holds exactly two questions, answered "选项A" and "信息1". */
  lemma FallbackAnswers()
    ensures Len(FallbackQuestions) == Some(2)
    ensures Field(Index(FallbackQuestions, 0).value, "correct_answer") == Some(JStr("选项A"))
    ensures Field(Index(FallbackQuestions, 1).value, "correct_answer") == Some(JStr("信息1"))
  {
  }

  /**
    A parser that behaves like `json.loads` in the one respect the model
    relies on: it rejects a text whose first character cannot begin JSON.
  */
  ghost predicate ParserSound(parse: string -> Option<Json>) {
    forall s :: parse(s).Some? ==> s != "" && CanBeginJson(s[0])
  }

  /**
    `_generate_questions`: the parsed chat answer, or the fallback when it does
    not parse or, not being a string, has no `strip`.
  */
  function QuestionsFor(client: Client, text: string, parse: string -> Option<Json>): Json {
    QuestionsOf(client.ChatFor(QuestionRequest(text)), parse)
  }

  /** The questions read from one chat answer. */
  function QuestionsOf(answer: Json, parse: string -> Option<Json>): Json {
    match answer
    case JStr(s) =>
      var parsed := parse(Cleaned(s));
      if parsed.Some? then parsed.value else FallbackQuestions
    case _ => FallbackQuestions
  }

  method GenerateQuestions(client: Client, text: string, parse: string -> Option<Json>) returns (questions: Json)
    modifies client
    ensures questions == QuestionsFor(client, text, parse)
    ensures client.calls == old(client.calls) + [ChatCall(QuestionRequest(text))]
  {
    var response := client.ChatWithQwen(QuestionRequest(text));
    questions := ReadQuestions(response, parse);
  }

  /** The parsing half of `_generate_questions`. */
  method ReadQuestions(response: Json, parse: string -> Option<Json>) returns (questions: Json)
    ensures questions == QuestionsOf(response, parse)
  {
    questions := FallbackQuestions;
    if response.JStr? {
      var cleaned := CleanResponse(response.s);
      var parsed := parse(cleaned);
      if parsed.Some? {
        questions := parsed.value;
      }
    }
  }

  /**
    A chat answer that is not a string, or a string that is stripped and
    starts with a character that neither opens a fence nor begins JSON, leaves
    the fallback questions in place.
  */
  lemma UnparsableAnswerGivesFallback(client: Client, text: string, parse: string -> Option<Json>)
    requires ParserSound(parse)
    requires var reply := client.ChatFor(QuestionRequest(text));
      || !reply.JStr?
      || (var answer := reply.s;
          answer != "" && Trimmed(answer) && answer[0] != '`' && answer[|answer| - 1] != '`' && !CanBeginJson(answer[0]))
    ensures QuestionsFor(client, text, parse) == FallbackQuestions
  {
    var reply := client.ChatFor(QuestionRequest(text));
    if !reply.JStr? {
      return;
    }
    var answer := reply.s;
    StripTrimmed(answer);
    assert !StartsWith(answer, "```") by {
      if |answer| >= 3 { assert answer[..3][0] == answer[0]; }
    }
    assert !EndsWith(answer, "```") by {
      if |answer| >= 3 { assert answer[|answer| - 3..][2] == answer[|answer| - 1]; }
    }
    CleanedWithoutFences(answer);
    assert Cleaned(answer) == answer;
    assert parse(answer).None?;
  }

  /** When the chat request fails, its demo sentence does not parse and the fallback questions are used. */
  lemma ChatFailureGivesFallback(client: Client, text: string, parse: string -> Option<Json>)
    requires ParserSound(parse) && client.chatReply(QuestionRequest(text)).ChatRaised?
    ensures QuestionsFor(client, text, parse) == FallbackQuestions
  {
    var f := ChatFallback;
    assert f != "" && f[0] == '这' && f[|f| - 1] == '。';
    UnparsableAnswerGivesFallback(client, text, parse);
  }

  /** A string answer whose cleaned text parses gives the parsed value as the questions. */
  lemma ParsedAnswerUsed(answer: string, parse: string -> Option<Json>, v: Json)
    requires parse(Cleaned(answer)) == Some(v)
    ensures QuestionsOf(JStr(answer), parse) == v
  {
  }

  /**
    A chat answer that fences a JSON text as ```json ... ``` puts that text's
    parse into the step's record as its questions.
  */
  lemma FencedQuestionsRecorded(text: string, cursor: nat, client: Client, parse: string -> Option<Json>, payload: string, v: Json)
    requires cursor < |Sections(text)|
    requires Trimmed(payload) && parse(payload) == Some(v)
    requires client.ChatFor(QuestionRequest(Sections(text)[cursor])) == JStr("```json\n" + payload + "\n```")
    ensures Record(text, cursor, client, parse).questions == v
  {
    CleanedJsonFence(payload);
    ParsedAnswerUsed("```json\n" + payload + "\n```", parse, v);
    RecordAt(text, cursor, client, parse);
  }

  /** The record a tutoring step appends, for the text and the cursor it reads. */
  function Record(text: string, cursor: nat, client: Client, parse: string -> Option<Json>): Message {
    var sections := Sections(text);
    if cursor >= |sections| then Completed
    else
      var current := sections[cursor];
      SectionRecord(AudioName(cursor), current, QuestionsFor(client, current, parse), SectionLabel(cursor, |sections|))
  }

  /** The remote requests of a tutoring step: speech, then questions. */
  function StepRequests(text: string, cursor: nat, client: Client): seq<Call> {
    var sections := Sections(text);
    if cursor >= |sections| then []
    else client.TtsRequests(sections[cursor]) + [ChatCall(QuestionRequest(sections[cursor]))]
  }

  /** The audio directory after a tutoring step: one file more, when speech gave bytes. */
  function AudioFiles(files: map<string, seq<byte>>, text: string, cursor: nat, client: Client): map<string, seq<byte>> {
    var sections := Sections(text);
    if cursor >= |sections| then files
    else
      var audio := client.AudioFor(sections[cursor]);
      if audio == [] then files else files[AudioName(cursor) := audio]
  }

  /** The state after `provide_pronunciation`: one record more. */
  function Tutored(s: Snapshot, client: Client, parse: string -> Option<Json>): Snapshot {
    s.(messages := s.messages + [Record(s.extractedText, s.currentSection.GetOr(0), client, parse)])
  }

  /** `provide_pronunciation`. */
  method ProvidePronunciation(state: AgentState, client: Client, disk: UploadDir, parse: string -> Option<Json>)
    modifies state, client, disk
    ensures state.Snap() == Tutored(old(state.Snap()), client, parse)
    ensures var text, cursor := old(state.extractedText), old(state.currentSection).GetOr(0);
      && client.calls == old(client.calls) + StepRequests(text, cursor, client)
      && disk.files == AudioFiles(old(disk.files), text, cursor, client)
  {
    var text := state.extractedText;
    var idx := state.currentSection.GetOr(0);
    ghost var calls0, files0 := client.calls, disk.files;
    var sections := Sections(text);
    if idx >= |sections| {
      state.messages := state.messages + [Completed];
      return;
    }
    var record := TutorSection(sections[idx], idx, |sections|, client, disk, parse);
    RecordAt(text, idx, client, parse);
    StepRequestsAt(text, idx, client, calls0);
    AudioFilesAt(text, idx, client, files0);
    state.messages := state.messages + [record];
  }

  /** A tutoring step appends exactly one record and changes nothing else in the state. */
  lemma TutorStep(s: Snapshot, client: Client, parse: string -> Option<Json>)
    ensures var t := Tutored(s, client, parse);
      && |t.messages| == |s.messages| + 1 && t.messages[..|s.messages|] == s.messages
      && !t.messages[|s.messages|].Note?
      && t.(messages := s.messages) == s
  {
    var t := Tutored(s, client, parse);
    assert t.messages[..|s.messages|] == s.messages;
  }

  /** The results of `TutorSection` on the section at the cursor are those of the step. */
  lemma RecordAt(text: string, idx: nat, client: Client, parse: string -> Option<Json>)
    requires idx < |Sections(text)|
    ensures var current := Sections(text)[idx];
      Record(text, idx, client, parse) == SectionRecord(AudioName(idx), current, QuestionsFor(client, current, parse), SectionLabel(idx, |Sections(text)|))
  {
  }

  lemma StepRequestsAt(text: string, idx: nat, client: Client, calls0: seq<Call>)
    requires idx < |Sections(text)|
    ensures var current := Sections(text)[idx];
      calls0 + StepRequests(text, idx, client) == calls0 + client.TtsRequests(current) + [ChatCall(QuestionRequest(current))]
  {
  }

  lemma AudioFilesAt(text: string, idx: nat, client: Client, files0: map<string, seq<byte>>)
    requires idx < |Sections(text)|
    ensures var current := Sections(text)[idx];
      AudioFiles(files0, text, idx, client) == (if client.AudioFor(current) == [] then files0 else files0[AudioName(idx) := client.AudioFor(current)])
  {
  }

  /** The body of a tutoring step on the section at `idx` of `total`. */
  method TutorSection(current: string, idx: nat, total: nat, client: Client, disk: UploadDir,
                      parse: string -> Option<Json>) returns (record: Message)
    modifies client, disk
    ensures record == SectionRecord(AudioName(idx), current, QuestionsFor(client, current, parse), SectionLabel(idx, total))
    ensures client.calls == old(client.calls) + client.TtsRequests(current) + [ChatCall(QuestionRequest(current))]
    ensures var audio := client.AudioFor(current);
      disk.files == if audio == [] then old(disk.files) else old(disk.files)[AudioName(idx) := audio]
  {
    var language := client.DetectLanguage(current);
    var audio := client.TextToSpeech(current, language);
    var name := "audio_" + Decimal(idx) + ".wav";
    if audio != [] {
      disk.files := disk.files[name := audio];
    }
    var questions := GenerateQuestions(client, current, parse);
    record := SectionRecord(name, current, questions, Decimal(idx + 1) + "/" + Decimal(total));
  }

  /**
    The completion rule: a cursor past the last section appends the
    completed record and does nothing else; otherwise the record reports the
    section at the cursor, stripped and non-empty unless the text is blank,
    with a label that reads back as the cursor plus one over the section count.
  */
  lemma CompletionRule(text: string, cursor: nat, client: Client, parse: string -> Option<Json>,
                       files: map<string, seq<byte>>)
    ensures Record(text, cursor, client, parse) == Completed <==> cursor >= |Sections(text)|
    ensures cursor >= |Sections(text)| ==> StepRequests(text, cursor, client) == [] && AudioFiles(files, text, cursor, client) == files
    ensures var r := Record(text, cursor, client, parse);
      r.SectionRecord? ==>
        && r.text == Sections(text)[cursor]
        && r.audioPath == AudioName(cursor)
        && LabelParts(r.section) == Some(Progress(cursor + 1, |Sections(text)|))
        && (!AllSpace(text) ==> r.text != "" && Trimmed(r.text))
  {
    if cursor < |Sections(text)| {
      LabelRoundTrip(cursor, |Sections(text)|);
      if !AllSpace(text) {
        SectionsTrimmed(text, cursor);
      }
    }
  }

  /**
    The step writes its audio file exactly when speech gave bytes, replacing
    whatever that name held; otherwise the directory is left as it was.
  */
  lemma AudioWrittenOnlyWithBytes(files: map<string, seq<byte>>, text: string, cursor: nat, client: Client)
    ensures var after := AudioFiles(files, text, cursor, client);
      && (cursor >= |Sections(text)| ==> after == files)
      && (cursor < |Sections(text)| ==>
            var audio := client.AudioFor(Sections(text)[cursor]);
            && (audio == [] ==> after == files)
            && (audio != [] ==> after == files[AudioName(cursor) := audio]))
      && (forall name :: name != AudioName(cursor) ==> (name in after <==> name in files))
      && (forall name | name in files && name != AudioName(cursor) :: after[name] == files[name])
  {
  }

  /**
    When speech gives no bytes, the record still names the step's audio file,
    and a file left under that name by an earlier upload is what it points to.
  */
  lemma StaleAudioKept(files: map<string, seq<byte>>, text: string, cursor: nat, client: Client, parse: string -> Option<Json>)
    requires cursor < |Sections(text)| && client.AudioFor(Sections(text)[cursor]) == []
    requires AudioName(cursor) in files
    ensures var after := AudioFiles(files, text, cursor, client);
      && AudioName(cursor) in after && after[AudioName(cursor)] == files[AudioName(cursor)]
    ensures Record(text, cursor, client, parse).SectionRecord?
    ensures Record(text, cursor, client, parse).audioPath == AudioName(cursor)
  {
  }

  /** The outcome of `evaluate_answer`; the explanation is whatever value the chat returned. */
  datatype Evaluation = Evaluation(isCorrect: bool, explanation: Json)

  const InvalidQuestion: Evaluation := Evaluation(false, JStr("Invalid question ID"))
  const EvaluationFailed: Evaluation := Evaluation(false, JStr("评估答案时出错，请重试。"))

  /** What `evaluate_answer` does before any chat: decide at once, or ask the chat about one question. */
  datatype Grading = Decided(result: Evaluation) | AskChat(request: ChatRequest, expected: Json)

  /** `json.loads` of the last message, reading an empty history as "{}". */
  function LastPayload(messages: seq<Message>): Option<Json> {
    if messages == [] then Some(JObj(map[])) else Payload(messages[|messages| - 1])
  }

  /**
    Looking up question `id` in the last record: anything that raises gives
    the generic failure; an id at or above the number of questions is invalid;
    a negative id counts from the end.
  */
  function GradingPlan(messages: seq<Message>, userAnswer: string, id: int): (r: Grading)
    ensures r.Decided? ==> r.result == InvalidQuestion || r.result == EvaluationFailed
    ensures r.AskChat? ==> r.request.GradingRequest? && r.request.correctAnswer == r.expected && r.request.userAnswer == userAnswer
    ensures r.AskChat? ==> messages != []
  {
    match LastPayload(messages)
    case None => Decided(EvaluationFailed)
    case Some(data) =>
      match Get(data, "questions", JArr([]))
      case None => Decided(EvaluationFailed)
      case Some(questions) =>
        match Len(questions)
        case None => Decided(EvaluationFailed)
        case Some(n) =>
          if id >= n then Decided(InvalidQuestion)
          else
            match Index(questions, id)
            case None => Decided(EvaluationFailed)
            case Some(q) =>
              if Field(q, "question").Some? && Field(q, "correct_answer").Some? then
                AskChat(GradingRequest(q.fields["question"], q.fields["correct_answer"], userAnswer), q.fields["correct_answer"])
              else Decided(EvaluationFailed)
  }

  /** The verdict once the chat has given its feedback: the expected answer must be a string. */
  function Grade(expected: Json, userAnswer: string, feedback: Json): (r: Evaluation)
    ensures expected.JStr? ==> r.explanation == feedback
    ensures !expected.JStr? ==> r == EvaluationFailed
    ensures expected == JStr(userAnswer) ==> r.isCorrect
  {
    match expected
    case JStr(e) => Evaluation(Strip(Lower(userAnswer)) == Strip(Lower(e)), feedback)
    case _ => EvaluationFailed
  }

  /** The result of `evaluate_answer` for the feedback the chat gives. */
  function Evaluated(messages: seq<Message>, userAnswer: string, id: int, client: Client): Evaluation {
    match GradingPlan(messages, userAnswer, id)
    case Decided(e) => e
    case AskChat(request, expected) => Grade(expected, userAnswer, client.ChatFor(request))
  }

  /** The remote requests of `evaluate_answer`: one chat request, or none when it decides at once. */
  function GradingRequests(messages: seq<Message>, userAnswer: string, id: int): seq<Call> {
    match GradingPlan(messages, userAnswer, id)
    case Decided(_) => []
    case AskChat(request, _) => [ChatCall(request)]
  }

  /** `evaluate_answer`: reads the state, never changes it, and asks the chat at most once. */
  method EvaluateAnswer(state: AgentState, client: Client, userAnswer: string, id: int) returns (r: Evaluation)
    modifies client
    ensures r == Evaluated(state.messages, userAnswer, id, client)
    ensures client.calls == old(client.calls) + GradingRequests(state.messages, userAnswer, id)
  {
    match GradingPlan(state.messages, userAnswer, id)
    case Decided(e) =>
      r := e;
    case AskChat(request, expected) =>
      var feedback := client.ChatWithQwen(request);
      r := Grade(expected, userAnswer, feedback);
  }

  /**
    The explanation fails to be a string exactly when the chat is asked about
    a question whose expected answer is a string and answers with another
    JSON value; every decision made without the chat explains itself in words.
  */
  lemma NonTextFeedback(messages: seq<Message>, userAnswer: string, id: int, client: Client)
    ensures var plan := GradingPlan(messages, userAnswer, id);
      var explained := Evaluated(messages, userAnswer, id, client).explanation.JStr?;
      !explained <==> plan.AskChat? && plan.expected.JStr? && !client.ChatFor(plan.request).JStr?
  {
  }

  /** An empty history has no questions: a non-negative id is invalid, a negative one fails. */
  lemma EmptyHistory(userAnswer: string, id: int)
    ensures GradingPlan([], userAnswer, id) == Decided(if id >= 0 then InvalidQuestion else EvaluationFailed)
  {
  }

  /** After the completed record there are no questions either; after a note nothing parses. */
  lemma NoQuestionsToGrade(messages: seq<Message>, userAnswer: string, id: int)
    requires messages != []
    ensures messages[|messages| - 1].Completed? ==>
      GradingPlan(messages, userAnswer, id) == Decided(if id >= 0 then InvalidQuestion else EvaluationFailed)
    ensures messages[|messages| - 1].Note? ==> GradingPlan(messages, userAnswer, id) == Decided(EvaluationFailed)
  {
  }

  /**
    Grading against the fallback questions: ids 0 and 1, and -2 and -1 from
    the end, ask about the first and second question; any other id is
    invalid (too large) or fails (too negative).
  */
  lemma GradingFallback(messages: seq<Message>, userAnswer: string, id: int)
    requires messages != [] && messages[|messages| - 1].SectionRecord?
    requires messages[|messages| - 1].questions == FallbackQuestions
    ensures var plan := GradingPlan(messages, userAnswer, id);
      && (id >= 2 ==> plan == Decided(InvalidQuestion))
      && (id < -2 ==> plan == Decided(EvaluationFailed))
      && ((id == 0 || id == -2) ==> plan.AskChat? && plan.expected == JStr("选项A"))
      && ((id == 1 || id == -1) ==> plan.AskChat? && plan.expected == JStr("信息1"))
  {
    var m := messages[|messages| - 1];
    assert Payload(m).value.fields["questions"] == FallbackQuestions;
  }

  /**
    The verdict is exactly `lower().strip()` equality: the answer is correct
    when it and the expected answer agree once stripped and lowered, and
    wrong otherwise.
  */
  lemma GradeVerdict(expected: string, answer: string, feedback: Json)
    ensures Grade(JStr(expected), answer, feedback).isCorrect <==> Lower(Strip(answer)) == Lower(Strip(expected))
  {
    StripLowerCommute(answer);
    StripLowerCommute(expected);
  }

  /** The verdict ignores letter case and surrounding whitespace, on either side. */
  lemma GradeIgnoresCaseAndPadding(expected: string, answer: string, left: string, right: string, feedback: Json)
    requires AllSpace(left) && AllSpace(right)
    ensures Grade(JStr(expected), left + answer + right, feedback) == Grade(JStr(expected), answer, feedback)
    ensures Grade(JStr(left + expected + right), answer, feedback) == Grade(JStr(expected), answer, feedback)
    ensures Lower(answer) == Lower(expected) ==> Grade(JStr(expected), answer, feedback) == Evaluation(true, feedback)
  {
    PaddingLowered(left, answer, right);
    PaddingLowered(left, expected, right);
  }

  /** Padding survives lowering and is then stripped away. */
  lemma PaddingLowered(left: string, x: string, right: string)
    requires AllSpace(left) && AllSpace(right)
    ensures Strip(Lower(left + x + right)) == Strip(Lower(x))
  {
    LowerConcat(left + x, right);
    LowerConcat(left, x);
    LowerOfSpace(left);
    LowerOfSpace(right);
    StripIgnoresPadding(left, Lower(x), right);
  }

  /** A difference in letter case only is accepted. */
  lemma CaseOnlyAccepted(feedback: Json)
    ensures Grade(JStr("Apple"), "apple", feedback).isCorrect
  {
    assert Lower("Apple") == Lower("apple") by {
      var rest := "pple";
      assert "Apple" == ['A'] + rest;
      assert "apple" == ['a'] + rest;
      LowerConcat(['A'], rest);
      LowerConcat(['a'], rest);
      assert Lower(['A']) == ['a'] == Lower(['a']);
    }
    TrimmedVerdict("Apple", "apple", feedback);
  }

  /** A different letter is rejected, whatever its case. */
  lemma OtherLetterRejected(feedback: Json)
    ensures !Grade(JStr("Apple"), "Bpple", feedback).isCorrect
  {
    TrimmedVerdict("Apple", "Bpple", feedback);
    assert Lower("Apple")[0] == 'a' && Lower("Bpple")[0] == 'b';
  }

  /** The other fallback option is rejected. */
  lemma OtherOptionRejected(feedback: Json)
    ensures !Grade(JStr("选项A"), "选项B", feedback).isCorrect
  {
    TrimmedVerdict("选项A", "选项B", feedback);
    assert Lower("选项A")[2] == 'a' && Lower("选项B")[2] == 'b';
  }

  /** For stripped answers the verdict is plain lowered equality. */
  lemma TrimmedVerdict(expected: string, answer: string, feedback: Json)
    requires Trimmed(expected) && Trimmed(answer)
    ensures Grade(JStr(expected), answer, feedback).isCorrect <==> Lower(answer) == Lower(expected)
  {
    GradeVerdict(expected, answer, feedback);
    StripTrimmed(expected);
    StripTrimmed(answer);
  }
}
