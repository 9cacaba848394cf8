/**
  The ModelScope (DashScope) client: language detection, the image subtype
  sent with an OCR request, the flattening of multimodal content, and what
  each remote operation returns for every answer the service can give.

  The service is an input. A `Client` holds, as constants, the answer each
  request would receive, and records in `calls` every request it issues, so
  "no remote call" reads as "`calls` unchanged".
*/
module ModelScope {
  import opened Wrappers
  import opened Text
  import opened Json
  import opened Paths

  newtype byte = x: int | 0 <= x < 256

  /** A CJK unified ideograph, U+4E00 to U+9FFF. */
  predicate IsCjk(c: char) {
    '\U{4E00}' <= c <= '\U{9FFF}'
  }

  /** The tag `_detect_language` gives a text. */
  function Language(text: string): (r: string)
    ensures r == "zh-cn" || r == "en"
    ensures r == "en" <==> forall i :: 0 <= i < |text| ==> !IsCjk(text[i])
  {
    if exists i :: 0 <= i < |text| && IsCjk(text[i]) then "zh-cn" else "en"
  }

  /**
    The subtype of the `data:image/...` URL: the `splitext` extension,
    lowercased, without dots, with "jpg" read as "jpeg".
  */
  function ImageSubtype(path: string): (r: string)
    ensures '.' !in r && r != "jpg"
  {
    var ext := Remove(Lower(Extension(path)), '.');
    if ext == "jpg" then "jpeg" else ext
  }

  /** What the comprehension over a multimodal content list does with one item. */
  datatype ItemOutcome = Skipped | Taken(text: string) | Raises

  /**
    `"text" in item` decides whether `item.get("text", "")` is taken: a dict
    is asked for the key, a string for the substring, a list for the element;
    a number, a boolean or null make `in` raise, a string or a list that passes
    the test has no `get`, and `join` raises on a text that is not a string.
  */
  function ItemText(item: Json): (r: ItemOutcome)
    ensures r.Taken? <==> item.JObj? && "text" in item.fields && item.fields["text"].JStr?
    ensures r.Taken? ==> r.text == item.fields["text"].s
    ensures item.JObj? ==> (r.Skipped? <==> "text" !in item.fields)
  {
    match item
    case JObj(fields) =>
      if "text" !in fields then Skipped
      else if fields["text"].JStr? then Taken(fields["text"].s)
      else Raises
    case JStr(s) => if Contains(s, "text") then Raises else Skipped
    case JArr(xs) => if JStr("text") in xs then Raises else Skipped
    case _ => Raises
  }

  /** The texts the comprehension collects, in order; `None` when it raises. */
  function TextsOf(items: seq<Json>): (r: Option<seq<string>>)
    ensures r.None? <==> exists i :: 0 <= i < |items| && ItemText(items[i]).Raises?
    ensures r.Some? ==> |r.value| <= |items|
  {
    if items == [] then Some([])
    else
      var rest := TextsOf(items[1..]);
      match ItemText(items[0])
      case Raises => None
      case Skipped => rest
      case Taken(t) => if rest.Some? then Some([t] + rest.value) else None
  }

  /** A multimodal content list flattened to one text, joined with single spaces. */
  function Flatten(items: seq<Json>): (r: Option<string>)
    ensures r.None? <==> exists i :: 0 <= i < |items| && ItemText(items[i]).Raises?
  {
    match TextsOf(items)
    case None => None
    case Some(texts) => Some(Join(texts, " "))
  }

  /** A list of text parts flattens to their texts joined with spaces. */
  lemma {:induction false} FlattenTextParts(texts: seq<string>)
    ensures Flatten(seq(|texts|, i requires 0 <= i < |texts| => JObj(map["text" := JStr(texts[i])])))
         == Some(Join(texts, " "))
  {
    TextsOfTextParts(texts);
  }

  lemma {:induction false} TextsOfTextParts(texts: seq<string>)
    ensures TextsOf(seq(|texts|, i requires 0 <= i < |texts| => JObj(map["text" := JStr(texts[i])])))
         == Some(texts)
  {
    var items := seq(|texts|, i requires 0 <= i < |texts| => JObj(map["text" := JStr(texts[i])]));
    if texts != [] {
      var tail := seq(|texts[1..]|, i requires 0 <= i < |texts[1..]| => JObj(map["text" := JStr(texts[1..][i])]));
      assert items[1..] == tail;
      TextsOfTextParts(texts[1..]);
      assert ItemText(items[0]) == Taken(texts[0]);
      assert [texts[0]] + texts[1..] == texts;
    }
  }

  /** An item the comprehension skips can stand anywhere without changing the result. */
  lemma {:induction false} SkippedItemIgnored(front: seq<Json>, item: Json, back: seq<Json>)
    requires ItemText(item) == Skipped
    ensures TextsOf(front + [item] + back) == TextsOf(front + back)
  {
    if front == [] {
      assert front + [item] + back == [item] + back;
      assert ([item] + back)[1..] == back;
      assert front + back == back;
    } else {
      SkippedItemIgnored(front[1..], item, back);
      assert (front + [item] + back)[1..] == front[1..] + [item] + back;
      assert (front + back)[1..] == front[1..] + back;
      assert (front + [item] + back)[0] == front[0] == (front + back)[0];
    }
  }

  /** The two confidences the client reports, 0.0 and 1.0. */
  datatype Confidence = Zero | Full

  datatype OcrResult = OcrResult(text: string, confidence: Confidence, language: string)

  /**
    What the OCR request comes to: an exception (the image file cannot be
    read, the connection fails, the status is an error, the body is not
    JSON), or the decoded JSON body.
  */
  datatype OcrReply = OcrRaised(message: string) | OcrAnswered(body: Json)

  const KeyMissingText: string := "Error: API Key missing"
  const OcrErrorPrefix: string := "Error during OCR: "

  /** `result.get("output", {}).get("choices", [{}])[0].get("message", {}).get("content", "")`. */
  function ReplyContent(body: Json): (r: Option<Json>)
    ensures r.Some? ==> body.JObj?
    ensures body.JObj? && "output" !in body.fields ==> r == Some(JStr(""))
  {
    var output := Get(body, "output", JObj(map[]));
    if output.None? then None
    else
      var choices := Get(output.value, "choices", JArr([JObj(map[])]));
      if choices.None? then None
      else
        var first := Index(choices.value, 0);
        if first.None? then None
        else
          var message := Get(first.value, "message", JObj(map[]));
          if message.None? then None else Get(message.value, "content", JStr(""))
  }

  /** A reply shaped as the service documents it yields the content of its first choice. */
  lemma ContentOfFirstChoice(content: Json, more: seq<Json>)
    ensures var message := JObj(map["message" := JObj(map["content" := content])]);
      ReplyContent(JObj(map["output" := JObj(map["choices" := JArr([message] + more)])])) == Some(content)
  {
  }

  /**
    The text read from an answered OCR request: string content as it is, list
    content flattened. `None` stands for every other content: a number, a
    boolean or null make the language scan raise, so the request ends as an
    OCR error; an object does not raise there and is returned as the text
    (see the README on this gap).
  */
  function ReplyText(body: Json): (r: Option<string>)
    ensures r.Some? ==> ReplyContent(body).Some? && (ReplyContent(body).value.JStr? || ReplyContent(body).value.JArr?)
    ensures ReplyContent(body).Some? && ReplyContent(body).value.JStr? ==> r == Some(ReplyContent(body).value.s)
  {
    match ReplyContent(body)
    case Some(JStr(s)) => Some(s)
    case Some(JArr(items)) => Flatten(items)
    case _ => None
  }

  /**
    The OCR result for a request that was sent; `shapeError` stands for the
    message of the exception an unexpected body raises.
  */
  function OcrOutcome(reply: OcrReply, shapeError: string): (r: OcrResult)
    ensures r.confidence == Full <==> reply.OcrAnswered? && ReplyText(reply.body).Some?
    ensures r.confidence == Full ==> r.text == ReplyText(reply.body).value && r.language == Language(r.text)
    ensures r.confidence == Zero ==> r.language == "en" && StartsWith(r.text, OcrErrorPrefix)
  {
    match reply
    case OcrRaised(m) => OcrResult(OcrErrorPrefix + m, Zero, "en")
    case OcrAnswered(body) =>
      match ReplyText(body)
      case Some(t) => OcrResult(t, Full, Language(t))
      case None => OcrResult(OcrErrorPrefix + shapeError, Zero, "en")
  }

  /** What the speech request comes to: an exception, or a status and a JSON body. */
  datatype TtsReply = TtsRaised | TtsAnswered(status: int, body: Json)

  /** What fetching the audio URL comes to. */
  datatype Download = Fetched(content: seq<byte>) | FetchRaised

  /**
    The URL the client fetches the audio from: `output.audio.url` of a 200
    answer, when it is a string starting with "http". In every other case the
    client returns no audio without fetching anything.
  */
  function AudioUrl(reply: TtsReply): (r: Option<string>)
    ensures r.Some? ==> reply.TtsAnswered? && reply.status == 200 && StartsWith(r.value, "http")
  {
    match reply
    case TtsRaised => None
    case TtsAnswered(status, body) =>
      if status != 200 then None
      else
        var output := Get(body, "output", JObj(map[]));
        var audio := if output.Some? then Get(output.value, "audio", JObj(map[])) else None;
        var url := if audio.Some? then Get(audio.value, "url", JNull) else None;
        match url
        case Some(JStr(u)) => if StartsWith(u, "http") then Some(u) else None
        case _ => None
  }

  /** What a chat request asks for; the prompt wording is not modelled. */
  datatype ChatRequest =
    | QuestionRequest(sectionText: string)
    | GradingRequest(question: Json, correctAnswer: Json, userAnswer: string)

  /** What the chat request comes to: an exception, or the decoded JSON body. */
  datatype ChatReply = ChatRaised | ChatAnswered(body: Json)

  const ChatFallback: string := "这是一个示例回答。请配置正确的 ModelScope API Key 以使用完整功能。"

  /**
    `result['output']['text']`, whatever JSON value it holds, or the fixed demo
    sentence when anything raises: the request fails, the body or its
    "output" is not an object, or a key is missing.
  */
  function ChatText(reply: ChatReply): (r: Json)
    ensures r == JStr(ChatFallback)
         || (reply.ChatAnswered? && Field(reply.body, "output").Some?
             && Field(Field(reply.body, "output").value, "text") == Some(r))
    ensures reply.ChatAnswered? && Field(reply.body, "output").Some?
            && Field(Field(reply.body, "output").value, "text").Some?
            ==> r == Field(Field(reply.body, "output").value, "text").value
    ensures reply.ChatRaised? ==> r == JStr(ChatFallback)
  {
    match reply
    case ChatRaised => JStr(ChatFallback)
    case ChatAnswered(body) =>
      match Field(body, "output")
      case Some(output) =>
        (match Field(output, "text")
         case Some(text) => text
         case None => JStr(ChatFallback))
      case None => JStr(ChatFallback)
  }

  /** A remote request the client issued. */
  datatype Call =
    | OcrCall(imagePath: string, subtype: string)
    | TtsCall(text: string)
    | AudioFetch(url: string)
    | ChatCall(request: ChatRequest)

  class Client {
    const apiKey: string
    const ocrReply: string -> OcrReply
    const ocrShapeError: string
    const ttsReply: string -> TtsReply
    const download: string -> Download
    const chatReply: ChatRequest -> ChatReply
    var calls: seq<Call>

    constructor (apiKey: string, ocrReply: string -> OcrReply, ocrShapeError: string,
                 ttsReply: string -> TtsReply, download: string -> Download,
                 chatReply: ChatRequest -> ChatReply)
      ensures this.apiKey == apiKey && this.ocrReply == ocrReply && this.ocrShapeError == ocrShapeError
      ensures this.ttsReply == ttsReply && this.download == download && this.chatReply == chatReply
      ensures calls == []
    {
      this.apiKey := apiKey;
      this.ocrReply := ocrReply;
      this.ocrShapeError := ocrShapeError;
      this.ttsReply := ttsReply;
      this.download := download;
      this.chatReply := chatReply;
      calls := [];
    }

    /** The result `ocr_image` returns for an image path. */
    function OcrFor(path: string): OcrResult {
      if apiKey == "" then OcrResult(KeyMissingText, Zero, "en")
      else OcrOutcome(ocrReply(path), ocrShapeError)
    }

    /** The requests `ocr_image` issues. */
    function OcrRequests(path: string): seq<Call> {
      if apiKey == "" then [] else [OcrCall(path, ImageSubtype(path))]
    }

    /** The bytes `text_to_speech` returns. */
    function AudioFor(text: string): seq<byte> {
      if apiKey == "" then []
      else
        match AudioUrl(ttsReply(text))
        case None => []
        case Some(u) => if download(u).Fetched? then download(u).content else []
    }

    /** The requests `text_to_speech` issues. */
    function TtsRequests(text: string): seq<Call> {
      if apiKey == "" then []
      else
        match AudioUrl(ttsReply(text))
        case None => [TtsCall(text)]
        case Some(u) => [TtsCall(text), AudioFetch(u)]
    }

    /** The value `chat_with_qwen` returns: a string, unless the service answered another JSON value. */
    function ChatFor(request: ChatRequest): Json {
      ChatText(chatReply(request))
    }

    /** `_detect_language`: scan for the first CJK character. */
    method DetectLanguage(text: string) returns (lang: string)
      ensures lang == Language(text)
    {
      var i := 0;
      while i < |text|
        invariant 0 <= i <= |text|
        invariant forall j :: 0 <= j < i ==> !IsCjk(text[j])
      {
        if IsCjk(text[i]) {
          return "zh-cn";
        }
        i := i + 1;
      }
      return "en";
    }

    /** `ocr_image`. */
    method OcrImage(path: string) returns (r: OcrResult)
      modifies this
      ensures r == OcrFor(path)
      ensures calls == old(calls) + OcrRequests(path)
    {
      if apiKey == "" {
        return OcrResult(KeyMissingText, Zero, "en");
      }
      var ext := Remove(Lower(Extension(path)), '.');
      if ext == "jpg" {
        ext := "jpeg";
      }
      calls := calls + [OcrCall(path, ext)];
      match ocrReply(path)
      case OcrRaised(m) =>
        r := OcrResult(OcrErrorPrefix + m, Zero, "en");
      case OcrAnswered(body) =>
        var text := ReplyText(body);
        if text.None? {
          r := OcrResult(OcrErrorPrefix + ocrShapeError, Zero, "en");
        } else {
          var lang := DetectLanguage(text.value);
          r := OcrResult(text.value, Full, lang);
        }
    }

    /** `text_to_speech`; the language argument is not part of the request. */
    method TextToSpeech(text: string, language: string) returns (audio: seq<byte>)
      modifies this
      ensures audio == AudioFor(text)
      ensures calls == old(calls) + TtsRequests(text)
    {
      if apiKey == "" {
        return [];
      }
      calls := calls + [TtsCall(text)];
      var url := AudioUrl(ttsReply(text));
      if url.None? {
        return [];
      }
      calls := calls + [AudioFetch(url.value)];
      match download(url.value)
      case Fetched(content) => audio := content;
      case FetchRaised => audio := [];
    }

    /** `chat_with_qwen`: one request, whatever its outcome. */
    method ChatWithQwen(request: ChatRequest) returns (answer: Json)
      modifies this
      ensures answer == ChatFor(request)
      ensures calls == old(calls) + [ChatCall(request)]
    {
      calls := calls + [ChatCall(request)];
      answer := ChatText(chatReply(request));
    }
  }

  /** Without a key, OCR and speech issue no request and degrade at once. */
  lemma NoKeyNoRequests(c: Client, path: string, text: string)
    requires c.apiKey == ""
    ensures c.OcrRequests(path) == [] && c.OcrFor(path) == OcrResult(KeyMissingText, Zero, "en")
    ensures c.TtsRequests(text) == [] && c.AudioFor(text) == []
  {
  }

  /**
    OCR has three kinds of result: the missing-key result, an error text with
    confidence 0.0 and language "en", and a read text with confidence 1.0 and
    its detected language.
  */
  lemma OcrResultKinds(c: Client, path: string)
    ensures var r := c.OcrFor(path);
      || (c.apiKey == "" && r == OcrResult(KeyMissingText, Zero, "en"))
      || (c.apiKey != "" && r.confidence == Zero && r.language == "en" && StartsWith(r.text, OcrErrorPrefix))
      || (c.apiKey != "" && r.confidence == Full && r.language == Language(r.text))
  {
  }

  /**
    Speech audio is never invented: non-empty audio means a key, a 200 answer
    with an "http" URL, a fetch of that URL, and exactly the fetched bytes.
  */
  lemma AudioOnlyFromFetchedUrl(c: Client, text: string)
    requires c.AudioFor(text) != []
    ensures c.apiKey != ""
    ensures var url := AudioUrl(c.ttsReply(text));
      && url.Some? && StartsWith(url.value, "http")
      && c.ttsReply(text).TtsAnswered? && c.ttsReply(text).status == 200
      && c.download(url.value) == Fetched(c.AudioFor(text))
      && c.TtsRequests(text) == [TtsCall(text), AudioFetch(url.value)]
  {
  }

  /**
    A path whose last component is `stem.e`, the stem holding something other
    than dots, gives the lowercased `e`, "jpg" read as "jpeg".
  */
  lemma SubtypeOfName(dir: string, stem: string, e: string)
    requires dir == "" || dir[|dir| - 1] == '/'
    requires stem != "" && '/' !in stem && HasNonDot(stem)
    requires '.' !in e && '/' !in e
    ensures ImageSubtype(dir + stem + "." + e) == if Lower(e) == "jpg" then "jpeg" else Lower(e)
  {
    ExtensionOfName(dir, stem, e);
    DotlessAfterDot(e);
  }

  /** Lowercasing and dropping the dots of `.e` leaves the lowercased `e`. */
  lemma DotlessAfterDot(e: string)
    requires '.' !in e
    ensures Remove(Lower("." + e), '.') == Lower(e)
  {
    var low := Lower(e);
    assert Lower("." + e) == "." + low;
    assert '.' !in low by {
      forall i | 0 <= i < |e| ensures low[i] != '.' {
        assert e[i] != '.';
      }
    }
    RemoveAbsent(low, '.');
    assert ("." + low)[1..] == low;
  }

  lemma {:induction false} RemoveAbsent(s: string, c: char)
    requires c !in s
    ensures Remove(s, c) == s
  {
    if s != "" {
      assert c !in s[1..] by {
        forall i | 0 <= i < |s[1..]| ensures s[1..][i] != c { assert s[1..][i] == s[i + 1]; }
      }
      RemoveAbsent(s[1..], c);
      assert [s[0]] + s[1..] == s;
    }
  }
}
