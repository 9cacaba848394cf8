# Echo Tutor session core in Dafny

Echo Tutor is a language-learning backend. A user uploads a text document
or an image. A reader agent extracts the text, by OCR for an image and by
reading the file for a document. A tutor agent cuts the text into sections.
For the section at the session's cursor, it synthesises speech, asks a chat
model for comprehension questions and appends a JSON record to the session's
message history. A small HTTP layer keeps sessions in an in-memory map and
offers four operations: upload, show the current section, grade an answer,
and move on to the next section. A diagnostic script masks the configured
API key and classifies its format.

This project models that core:

- `Text` (text.dfy): the Python string operations the core relies on
  (`isspace`, `strip`, `split`, `join`, ASCII `lower`, `str(n)`), with their
  laws.
- `Json` (json.dfy): JSON values, with Python's `len`, `dict.get` and
  negative-index semantics.
- `Paths` (paths.dfy): `os.path.splitext`, and `pathlib.Path.suffix` on the name pathlib keeps after parsing.
- `Segmentation` (segmentation.dfy): the three-step section split that both
  agents use.
- `ModelScope` (client.dfy): the remote client. A class holds the remote
  answers as constants and keeps a log of the requests it issues. Pure
  functions state each operation's fallback rules.
- `State` (state.dfy): the agent state as a class. A `Snapshot` value
  describes its contents, and `UploadDir` models the upload directory.
- `ReaderAgent`, `TutorAgent` and `Graph`: `process_document`,
  `provide_pronunciation` with question generation, `evaluate_answer`, and
  the reader-then-tutor pipeline.
- `Routes` (routes.dfy): upload validation and the `SessionStore` class that
  models the `sessions` dictionary.
- `Diagnose` (diagnose.dfy): key masking and key-format classification.

Every remote or foreign effect is an input to the model:

- OCR, speech, audio download and chat replies are functions held by the
  `Client`.
- Reading a document is a `string -> ReadOutcome` function.
- `json.loads` of a chat answer is a `string -> Option<Json>` function.
- The fresh upload id is a parameter.

Each method is proved against a function on snapshots. For example,
`RunGraph` ensures `state.Snap() == Pipeline(old(state.Snap()), ...)`. The
lemmas then state what the functions promise.

Two behaviours of the code differ from what its comments suggest; the model
follows the code:

- Segmentation: the comments at echo_tutor/agents/reader_agent.py:51 and :54
  speak of a split "by paragraphs or sentences". The sentence split runs only
  when the blank-line split keeps nothing, so a single paragraph such as
  `"你好。再见。"` is one section, not two (`FullStopsDoNotSplit`).
- Audio: echo_tutor/agents/tutor_agent.py:51-53 writes the file only when
  speech returned bytes. Otherwise nothing is written, yet the record still
  names `audio_{idx}.wav`, and a file left under that name by an earlier
  upload stays in place (`StaleAudioKept`).

## Model

| member | source | states |
|---|---|---|
| Segmentation.Sections | echo_tutor/agents/tutor_agent.py:22-26 | the split always yields at least one section |
| Segmentation.SectionsCases | echo_tutor/agents/tutor_agent.py:22-26 | a whitespace-only text gives exactly `[text]`; any other text gives the stripped non-empty pieces of the blank-line split |
| Segmentation.ParagraphsEmptyIffBlank | echo_tutor/agents/tutor_agent.py:22-23 | the blank-line split keeps nothing exactly when the whole text is whitespace |
| Segmentation.SentencesOfBlank | echo_tutor/agents/tutor_agent.py:24 | on a whitespace-only text the `'。'` split keeps nothing either, so that branch never yields a section |
| Segmentation.KeepContentTrimmed | echo_tutor/agents/tutor_agent.py:22 | every kept piece is non-empty and stripped |
| Segmentation.KeepContentEmpty | echo_tutor/agents/tutor_agent.py:22 | nothing is kept exactly when every piece is whitespace |
| Segmentation.KeepContentAppend | echo_tutor/agents/tutor_agent.py:22 | the filter keeps pieces in their left-to-right order: it distributes over concatenation |
| Segmentation.ContentIffNotBlank | echo_tutor/agents/tutor_agent.py:22 | with a whitespace separator, nothing is kept exactly when the joined text is whitespace |
| Segmentation.SectionsTrimmed | echo_tutor/agents/tutor_agent.py:22 | each section of a non-blank text is non-empty and stripped |
| Segmentation.SingleParagraph | echo_tutor/agents/tutor_agent.py:22-26 | a non-blank text without a blank line is the single section `text.strip()` |
| Segmentation.OneLineOneSection | echo_tutor/agents/tutor_agent.py:22-26 | a stripped non-empty single line is its own single section |
| Segmentation.FullStopsDoNotSplit | echo_tutor/agents/tutor_agent.py:22-26 | `"你好。再见。"` is one section |
| Segmentation.SplitWithoutOccurrence | echo_tutor/agents/tutor_agent.py:22 | splitting on an absent separator gives the whole string |
| Text.Strip | echo_tutor/agents/tutor_agent.py:22 | the result of `strip` has whitespace at neither end |
| Text.StripPadded | echo_tutor/agents/tutor_agent.py:164 | stripping removes any whitespace padding around a stripped text |
| Text.StripIdempotent | echo_tutor/agents/tutor_agent.py:110 | stripping twice is stripping once |
| Text.StripContained | echo_tutor/agents/tutor_agent.py:103 | the stripped text is a contiguous substring of the input |
| Text.StripDecompose | echo_tutor/agents/tutor_agent.py:22 | a string is whitespace, then its stripped form, then whitespace |
| Text.StripKeeps | echo_tutor/api/routes.py:112 | each non-whitespace character survives stripping |
| Text.StripEmpty | echo_tutor/agents/tutor_agent.py:22 | a string strips to empty exactly when it is all whitespace |
| Text.SplitJoin | echo_tutor/agents/tutor_agent.py:22 | joining the pieces of a split with its separator gives the string back |
| Text.SplitAtFirst | echo_tutor/agents/tutor_agent.py:24 | splitting on a character gives the text before its first occurrence, then the split of the rest |
| Text.JoinAllSpace | echo_tutor/agents/tutor_agent.py:22 | with a whitespace separator, the join is whitespace exactly when every piece is |
| Text.Lower | echo_tutor/agents/tutor_agent.py:164 | the result has the same length and holds no capital letter; each capital becomes its own small letter, and every other character is kept |
| Text.LowerIdempotent | echo_tutor/agents/tutor_agent.py:164 | lowering a lowered string changes nothing |
| Text.StripLowerCommute | echo_tutor/agents/tutor_agent.py:164 | stripping then lowering gives the same string as lowering then stripping |
| Text.LowerKeepsSpace | echo_tutor/agents/tutor_agent.py:164 | a character is whitespace after lowering exactly when it was before |
| Text.LowerConcat | echo_tutor/agents/tutor_agent.py:164 | lowering distributes over concatenation |
| Text.Split | echo_tutor/agents/tutor_agent.py:22 | a split always yields at least one piece |
| Text.JoinEnds | echo_tutor/services/modelscope_client.py:57 | a join starts with its first piece and ends with its last |
| Text.Decimal | echo_tutor/agents/tutor_agent.py:63 | `str(n)` is a non-empty run of digits |
| Text.DecimalRoundTrip | echo_tutor/agents/tutor_agent.py:63 | `str(n)` reads back as `n` |
| Json.Len | echo_tutor/agents/tutor_agent.py:145 | `len` is defined exactly on arrays, objects and strings |
| Json.Get | echo_tutor/agents/tutor_agent.py:143 | `dict.get` is defined only on objects and gives the default for a missing key |
| Json.Position | echo_tutor/agents/tutor_agent.py:148 | an index in `[-n, n)` is valid and negative ones count from the end |
| Json.Index | echo_tutor/agents/tutor_agent.py:148 | indexing an array in range gives that item |
| Json.Field | echo_tutor/agents/tutor_agent.py:158 | `d[key]` succeeds exactly on an object holding the key |
| Paths.LastIndex | echo_tutor/services/modelscope_client.py:25 | the last occurrence of a character, or none when absent |
| Paths.NameStart | echo_tutor/services/modelscope_client.py:25 | the final path component contains no separator |
| Paths.Extension | echo_tutor/services/modelscope_client.py:25 | `splitext` gives empty or a final dot-started, dot-free suffix of the name |
| Paths.Name | echo_tutor/api/routes.py:28 | `Path.name` is the last component left once empty and `.` components are dropped: never `.`, without a separator, and no longer than the path |
| Paths.Suffix | echo_tutor/api/routes.py:28 | `Path.suffix` is empty or a dot followed by at least one dot-free character, at the end of the name pathlib keeps |
| Paths.NameIgnoresTrailing | echo_tutor/api/routes.py:28 | a trailing `/` or `/.` does not change the name |
| Paths.SuffixIgnoresTrailing | echo_tutor/api/routes.py:28 | a trailing `/` or `/.` does not change the suffix |
| Paths.TrailingSlashSuffix | echo_tutor/api/routes.py:28 | the suffix of "x.png/" is ".png" |
| Paths.ExtensionOfName | echo_tutor/api/routes.py:28 | for a last component `stem.ext` under any directory, where the stem may hold dots: the suffix is `.ext` when ext is not empty, and the `splitext` extension is `.ext` unless the stem is all dots |
| Paths.NoDotNoExtension | echo_tutor/api/routes.py:28 | a name without a dot has no suffix |
| ModelScope.Client.DetectLanguage | echo_tutor/services/modelscope_client.py:168-174 | the scan returns "zh-cn" exactly when some character is in U+4E00..U+9FFF, and "en" otherwise |
| ModelScope.ImageSubtype | echo_tutor/services/modelscope_client.py:25-26 | the subtype holds no dot and is never "jpg" |
| ModelScope.Language | echo_tutor/services/modelscope_client.py:168-174 | the tag is "zh-cn" or "en", and "en" exactly when no character is in U+4E00..U+9FFF |
| ModelScope.SubtypeOfName | echo_tutor/services/modelscope_client.py:25-26 | for a last component `stem.ext` under any directory, the stem not all dots, the subtype is the lowercased ext, with "jpg" read as "jpeg" |
| ModelScope.DotlessAfterDot | echo_tutor/services/modelscope_client.py:25 | removing dots from `"." + ext` lowered gives the lowered ext |
| ModelScope.RemoveAbsent | echo_tutor/services/modelscope_client.py:25 | removing an absent character changes nothing |
| ModelScope.ItemText | echo_tutor/services/modelscope_client.py:57 | an item's text is taken exactly when it is an object with a string "text"; an object without "text" is skipped |
| ModelScope.TextsOf | echo_tutor/services/modelscope_client.py:57 | the comprehension raises exactly when some item raises, and otherwise collects at most one text per item |
| ModelScope.Flatten | echo_tutor/services/modelscope_client.py:56-57 | flattening fails exactly when some item raises |
| ModelScope.TextsOfTextParts | echo_tutor/services/modelscope_client.py:56-57 | a list of text items yields exactly their texts |
| ModelScope.FlattenTextParts | echo_tutor/services/modelscope_client.py:56-57 | flattening joins the item texts with single spaces |
| ModelScope.SkippedItemIgnored | echo_tutor/services/modelscope_client.py:57 | an item without "text" does not change the flattened result |
| ModelScope.ReplyContent | echo_tutor/services/modelscope_client.py:54 | content is read only from an object body; an object without "output" gives the empty string |
| ModelScope.ContentOfFirstChoice | echo_tutor/services/modelscope_client.py:54 | a reply `{"output": {"choices": [{"message": {"content": c}}, ...]}}` gives `c` |
| ModelScope.ReplyText | echo_tutor/services/modelscope_client.py:54-57 | a text is read only from string or list content, and string content is the text itself |
| ModelScope.OcrOutcome | echo_tutor/services/modelscope_client.py:54-70 | full confidence exactly when the reply has readable content, then language detected from the text; otherwise an "Error during OCR: " text with language "en" |
| ModelScope.Client.OcrImage | echo_tutor/services/modelscope_client.py:13-70 | the OCR result and the requests issued are those of the reply model |
| ModelScope.OcrResultKinds | echo_tutor/services/modelscope_client.py:17-18 | OCR returns the missing-key result, an error result, or a read result with its detected language |
| ModelScope.AudioUrl | echo_tutor/services/modelscope_client.py:108-115 | a URL is used only from a status-200 answer and only when it starts with "http" |
| ModelScope.Client.TextToSpeech | echo_tutor/services/modelscope_client.py:72-130 | the audio and the requests issued are those of the reply model |
| ModelScope.AudioOnlyFromFetchedUrl | echo_tutor/services/modelscope_client.py:76-130 | non-empty audio means a key, a 200 answer with an "http" URL, and exactly the bytes fetched from it |
| ModelScope.NoKeyNoRequests | echo_tutor/services/modelscope_client.py:17-18 | without a key, OCR and speech return their fallbacks and issue no request |
| ModelScope.ChatText | echo_tutor/services/modelscope_client.py:162-166 | the answer is the demo sentence or `output.text` of the reply, whatever JSON value that is; whenever `output.text` exists it is the answer, and an exception always gives the demo sentence |
| ModelScope.Client.ChatWithQwen | echo_tutor/services/modelscope_client.py:132-166 | the answer is that of the reply model and exactly one chat request is logged |
| State.Payload | echo_tutor/agents/tutor_agent.py:31-36 | reader notes never parse; each record is an object whose "completed" is true exactly for the completed record |
| State.Initial | echo_tutor/api/routes.py:48-56 | a new session has no messages and cursor 0 |
| ReaderAgent.ProcessDocument | echo_tutor/agents/reader_agent.py:19-63 | the new state is `Read` of the old one, and only an image issues a remote request |
| ReaderAgent.StoreExtraction | echo_tutor/agents/reader_agent.py:49-61 | text and count are stored, one note is appended, and the cursor is kept or set to 0 |
| ReaderAgent.ExtractText | echo_tutor/agents/reader_agent.py:26-47 | the branch on the file type gives the text and note of `Extract` |
| ReaderAgent.ReaderStep | echo_tutor/agents/reader_agent.py:19-63 | exactly one non-JSON note is appended; the count is that of `Sections` and at least 1; an existing cursor is kept and a missing one set to 0; path, type and action are unchanged |
| ReaderAgent.ExtractedText | echo_tutor/agents/reader_agent.py:26-49 | the text is the OCR text, the file's text, or "Error reading file: " and the error |
| ReaderAgent.NoteIsNotJson | echo_tutor/agents/reader_agent.py:31-47 | every note starts with a letter that cannot begin JSON |
| ReaderAgent.SectionCountPositive | echo_tutor/agents/reader_agent.py:52-59 | the recorded count is at least 1, and 1 for a whitespace-only text |
| TutorAgent.LabelRoundTrip | echo_tutor/agents/tutor_agent.py:63 | the label `"i+1/total"` reads back as its two numbers |
| TutorAgent.AudioNameInjective | echo_tutor/agents/tutor_agent.py:48 | different cursors name different audio files |
| TutorAgent.Cleaned | echo_tutor/agents/tutor_agent.py:103-110 | the cleaned response is stripped |
| TutorAgent.CleanResponse | echo_tutor/agents/tutor_agent.py:103-110 | the step-by-step cleaning computes `Cleaned` |
| TutorAgent.CleanedIsSubstring | echo_tutor/agents/tutor_agent.py:103-110 | the cleaned response is a contiguous substring of the response |
| TutorAgent.CleanedWithoutFences | echo_tutor/agents/tutor_agent.py:103-110 | a response without fences is just stripped |
| TutorAgent.CleanedJsonFence | echo_tutor/agents/tutor_agent.py:104-110 | a "```json" fenced payload is recovered exactly |
| TutorAgent.CleanedPlainFence | echo_tutor/agents/tutor_agent.py:106-110 | a plain fenced payload is recovered exactly |
| TutorAgent.DropsContained | echo_tutor/agents/tutor_agent.py:104-109 | each fence removal keeps a contiguous substring |
| TutorAgent.FenceIsTrimmed | echo_tutor/agents/tutor_agent.py:103 | a text with backquotes at both ends is already stripped |
| TutorAgent.StripNewlines | echo_tutor/agents/tutor_agent.py:110 | the final strip removes the newlines around a stripped payload |
| TutorAgent.FallbackAnswers | echo_tutor/agents/tutor_agent.py:117-130 | the fallback has two questions, answered "选项A" and "信息1" |
| TutorAgent.GenerateQuestions | echo_tutor/agents/tutor_agent.py:70-130 | the questions are those read from the chat's answer, after exactly one chat request |
| TutorAgent.ReadQuestions | echo_tutor/agents/tutor_agent.py:101-130 | the parse of the cleaned answer, or the fallback when the answer is not a string or does not parse |
| TutorAgent.ParsedAnswerUsed | echo_tutor/agents/tutor_agent.py:103-113 | a string answer whose cleaned text parses gives the parsed value as the questions |
| TutorAgent.FencedQuestionsRecorded | echo_tutor/agents/tutor_agent.py:56-66 | when the chat answers with a "```json" fenced JSON text, the step's record holds that text's parse as its questions |
| TutorAgent.UnparsableAnswerGivesFallback | echo_tutor/agents/tutor_agent.py:112-130 | an answer no sound parser accepts gives exactly the fallback questions |
| TutorAgent.ChatFailureGivesFallback | echo_tutor/agents/tutor_agent.py:112-130 | a failed chat gives the fallback questions, because the demo sentence is not JSON |
| TutorAgent.ProvidePronunciation | echo_tutor/agents/tutor_agent.py:15-68 | the new state is `Tutored` of the old one, with the step's requests and audio files |
| TutorAgent.TutorSection | echo_tutor/agents/tutor_agent.py:39-66 | the record holds `audio_{idx}.wav`, the section, its questions and the label; speech, then one chat request; a file only for non-empty audio |
| TutorAgent.TutorStep | echo_tutor/agents/tutor_agent.py:28-68 | exactly one non-note record is appended and nothing else in the state changes |
| TutorAgent.CompletionRule | echo_tutor/agents/tutor_agent.py:28-68 | the completed record exactly when the cursor is past the last section, then with no request and no file; otherwise the section at the cursor, its audio name and a label reading cursor+1 of the count |
| TutorAgent.AudioWrittenOnlyWithBytes | echo_tutor/agents/tutor_agent.py:51-53 | with bytes the step's audio name maps to them, replacing any earlier file; without bytes, or past the last section, the directory is unchanged; no other name changes |
| TutorAgent.StaleAudioKept | echo_tutor/agents/tutor_agent.py:51-60 | without bytes, a file already under the step's audio name is kept and the record still points to it |
| TutorAgent.RecordAt | echo_tutor/agents/tutor_agent.py:39-66 | the record for an in-range cursor is the section record of that section |
| TutorAgent.EvaluateAnswer | echo_tutor/agents/tutor_agent.py:132-175 | the result and the requests are those of `Evaluated`, and the state is only read |
| TutorAgent.GradingPlan | echo_tutor/agents/tutor_agent.py:139-175 | a decision without the chat is "Invalid question ID" or the generic failure; otherwise the chat is asked about the question with its correct answer and the user's answer, and never for an empty history |
| TutorAgent.Grade | echo_tutor/agents/tutor_agent.py:164-175 | a string expected answer gives the chat's feedback as the explanation; any other gives the generic failure; repeating the expected answer is correct |
| TutorAgent.NonTextFeedback | echo_tutor/agents/tutor_agent.py:162-169 | the explanation is not a string exactly when the chat was asked about a question with a string answer and returned another JSON value |
| TutorAgent.EmptyHistory | echo_tutor/agents/tutor_agent.py:139-146 | an empty history reads as `{}`: ids from 0 are invalid, negative ids fail |
| TutorAgent.NoQuestionsToGrade | echo_tutor/agents/tutor_agent.py:139-146 | after a completed record no question exists, and after a note the parse fails |
| TutorAgent.GradingFallback | echo_tutor/agents/tutor_agent.py:145-148 | for the fallback questions ids from 2 are invalid, ids below -2 fail, and the others ask about "选项A" or "信息1" by Python indexing |
| TutorAgent.GradeVerdict | echo_tutor/agents/tutor_agent.py:164 | the verdict is correct exactly when the stripped answers are equal once lowered, in both directions |
| TutorAgent.GradeIgnoresCaseAndPadding | echo_tutor/agents/tutor_agent.py:164 | whitespace padding around the user's answer or around the expected answer leaves the verdict unchanged, and equal lowered answers are correct whatever the feedback |
| TutorAgent.PaddingLowered | echo_tutor/agents/tutor_agent.py:164 | whitespace padding survives lowering and is then stripped away |
| TutorAgent.TrimmedVerdict | echo_tutor/agents/tutor_agent.py:164 | for answers without surrounding whitespace the verdict is exactly equality after lowering |
| TutorAgent.CaseOnlyAccepted | echo_tutor/agents/tutor_agent.py:164 | "apple" is a correct answer to "Apple" |
| TutorAgent.OtherLetterRejected | echo_tutor/agents/tutor_agent.py:164 | "Bpple" is not a correct answer to "Apple" |
| TutorAgent.OtherOptionRejected | echo_tutor/agents/tutor_agent.py:164 | "选项B" is not a correct answer to the fallback's "选项A" |
| Graph.RunGraph | echo_tutor/agents/graph.py:17-23 | one run is the reader then the tutor on the same state, with their requests and files in order |
| Graph.PipelineStep | echo_tutor/agents/graph.py:21-23 | a run appends the reader's note then the tutor's record; the count recorded is the label's denominator |
| Routes.KindOf | echo_tutor/api/routes.py:29-34 | only a dot followed by lowercase letters is ever accepted |
| Routes.ValidateUpload | echo_tutor/api/routes.py:22-34 | an accepted upload keeps the lowercased suffix and its kind; within the limit, acceptance holds exactly when that suffix is one of the six; a rejection is "File too large" or "Unsupported file type" |
| Routes.SizeCheckedFirst | echo_tutor/api/routes.py:24-25 | "File too large" exactly above the limit, before the name is looked at; exactly the limit is accepted |
| Routes.UploadKinds | echo_tutor/api/routes.py:28-34 | for any name ending in `stem.ext`, dots in the stem allowed, the lowercased ext decides: image, document, or unsupported |
| Routes.UpperCaseImageAccepted | echo_tutor/api/routes.py:28-34 | within the limit, "x.PNG" is accepted as an image stored with the extension ".png" |
| Routes.ValidateBySuffix | echo_tutor/api/routes.py:28-34 | within the limit, the lowercased suffix alone decides between an accepted kind and "Unsupported file type" |
| Routes.LoweredSuffixOfName | echo_tutor/api/routes.py:28 | the lowercased suffix of `stem.ext` under any directory is the dot and ext lowercased |
| Routes.TrailingSlashIgnored | echo_tutor/api/routes.py:28-34 | a trailing `/` or `/.` on the uploaded name does not change whether or how it is accepted |
| Routes.StoredImageSubtype | echo_tutor/api/routes.py:28-41 | the stored copy of an accepted image is sent to OCR as "jpeg" for `.jpg` and as its own extension otherwise |
| Routes.StoredSubtype | echo_tutor/api/routes.py:37-41 | the same for any image extension and upload id |
| Routes.NoDotUnsupported | echo_tutor/api/routes.py:28-34 | a name without a suffix is unsupported |
| Routes.HiddenFileUnsupported | echo_tutor/api/routes.py:28-34 | a dot-file such as ".txt" has no suffix and is unsupported |
| Routes.ParseInt | echo_tutor/api/routes.py:112 | `int()` succeeds only on text that is not blank |
| Routes.ParseIntRoundTrip | echo_tutor/api/routes.py:112 | `int(str(i))` is `i`, with any whitespace padding |
| Routes.SignedRoundTrip | echo_tutor/api/routes.py:112 | a signed decimal reads back as its value |
| Routes.BlankIsNotInt | echo_tutor/api/routes.py:112 | blank text is no integer |
| Routes.StrayCharIsNotInt | echo_tutor/api/routes.py:112 | a character other than whitespace, digit or sign makes `int()` fail |
| Routes.View | echo_tutor/api/routes.py:85-95 | "No content available" exactly for an empty history; otherwise an object |
| Routes.ViewOfRecord | echo_tutor/api/routes.py:88-93 | a tutor record as last message is shown parsed, without the error object |
| Routes.ViewAfterRun | echo_tutor/api/routes.py:85-95 | after any pipeline run the view is the tutor's record and reports completion exactly when the cursor has passed the count |
| Routes.FirstRun | echo_tutor/api/routes.py:46-65 | an upload's session holds the note and the record of section 0, `audio_0.wav`, cursor 0 and action "continue" |
| Routes.NextRun | echo_tutor/api/routes.py:130-141 | `next` moves the cursor by exactly one, sets "next_section" and appends a note and the new cursor's record, keeping the history |
| Routes.SessionStore.constructor | echo_tutor/api/routes.py:15 | the store starts empty |
| Routes.SessionStore.Upload | echo_tutor/api/routes.py:17-71 | a rejected upload changes nothing; an accepted one writes the file, runs the pipeline on a fresh initial state and stores it under the id alone |
| Routes.SessionStore.Admit | echo_tutor/api/routes.py:36-65 | the accepted branch: file written, fresh state run once and stored under the id |
| Routes.SessionStore.Store | echo_tutor/api/routes.py:62-65 | the id now maps to the state and no other entry changes |
| Routes.SessionStore.Current | echo_tutor/api/routes.py:73-95 | unknown id gives "Session not found"; otherwise the view of the session's messages |
| Routes.SessionStore.SubmitAnswer | echo_tutor/api/routes.py:97-119 | unknown id gives 404 with no request; a non-integer id gives 500; otherwise the evaluation with "continue", or 500 when its explanation is not a string; the session only read |
| Routes.SessionStore.Next | echo_tutor/api/routes.py:121-143 | unknown id gives 404 and changes nothing; otherwise the session becomes the pipeline run on the advanced state and other sessions are unchanged |
| Routes.Advance | echo_tutor/api/routes.py:131-135 | the action becomes "next_section" and the cursor moves on by one |
| Diagnose.Mask | scripts/diagnose_api.py:33 | the mask is 3 or 11 characters, and "***" exactly for keys of at most 8 |
| Diagnose.Check | scripts/diagnose_api.py:29-42 | only the empty key fails to load; a loaded key is legacy exactly with "ms-" and DashScope exactly with "sk-" |
| Diagnose.Probes | scripts/diagnose_api.py:40-42 | either no probe or all three models, and only for a loaded key |
| Diagnose.PrefixesExclusive | scripts/diagnose_api.py:37-40 | no key has both prefixes |
| Diagnose.MaskShowsOnlyEnds | scripts/diagnose_api.py:33 | a long key shows only its first and last four characters around "***" |
| Diagnose.ShortKeysLookAlike | scripts/diagnose_api.py:33 | all short keys display the same |
| Diagnose.ReportFields | scripts/diagnose_api.py:29-39 | only the empty key fails to load; the "ms-" prefix is legacy |
| Diagnose.ProbesOnlyForDashScope | scripts/diagnose_api.py:37-42 | the probes run exactly for an "sk-" key and never for an "ms-" key |
| Diagnose.UnknownFormat | scripts/diagnose_api.py:98-99 | any other key is of unknown format and is not probed |

## Left out

- HTTP and web plumbing (FastAPI routing, status mapping, CORS, uvicorn): rejections are an `HttpError` value.
- Remote payloads, base64 encoding, timeouts and headers: each remote answer is an input value of the client.
- Concurrency: the async execution and the unlocked `sessions` dictionary are modelled as one call at a time.
- LangGraph: the graph library and the `operator.add` reducer on `messages` are not part of this model. The pipeline is plain composition with in-place appends on one state object. `next_section` storing the run's result back under the session is then the same object.
- `json.loads` and `json.dumps`: a message is a `Note` or a record datatype. The chat-answer parser is an input function whose soundness is an assumption in the lemmas that need it.
- JSON numbers: floats are not modelled. OCR confidence has the two values 0.0 and 1.0.
- Prompt wording: chat requests record only what they ask about.
- ModelScope.Client.TextToSpeech: the language argument is not sent to the service, as in the source, and is not recorded.
- ModelScope.Client.OcrImage: reading and encoding the image happens inside the same `try`. Its failure is folded into the OCR reply value. The request is logged whether or not the read fails.
- ModelScope.OcrOutcome: the text of a Python exception is an input string, not a derived message.
- ModelScope.ReplyText: content that is a JSON object gives no text here, while the source's client returns the object itself without raising; the consequences are on the next line.
- ModelScope.OcrOutcome: OCR content that is a JSON object is reported as an OCR error with confidence 0.0. The source returns the object itself as the text, with confidence 1.0. The reader then raises on it, because an object has no `split`, so in the source that upload fails with a 500 and stores no session, while the model stores a session over the error text. Modelling it would make every read fallible for one content shape.
- The upload size limit: `settings.max_file_size` is the `maxSize` parameter of `ValidateUpload` and `Upload`, not a constant of the model.
- Text.Lower: only ASCII letters are lowered, where Python's `str.lower` also lowers other alphabets.
- `strip` and `isspace` follow Python's whitespace set.
- Routes.ParseInt: `int()` forms with underscores or non-ASCII digits are not accepted by the model.
- Routes.SessionStore.SubmitAnswer: an `int()` failure becomes a 500 error value rather than an exception.
- Fresh ids: `uuid4` is a parameter of `Upload`. The model allows an id already in the store to be reused; then the old session is replaced.
- The cursor read by the tutor: a missing `current_section` is read as 0. A `None` cursor cannot occur, because the reader always sets one before the tutor runs.
- The upload directory is one map shared by all sessions. Audio files of different sessions share the names `audio_{idx}.wav`, as in the source.
- Path normalisation by `pathlib`: the stored path is the directory, a slash, the id and the suffix. For the uploaded name, `Paths.Name` drops empty and `.` components as pathlib does; drive letters and Windows separators are not modelled, since paths are POSIX.
- Debug and error printing, `.env` loading, directory creation.
- Diagnostic network probes: only the list of models probed is modelled, not the requests or their output.
