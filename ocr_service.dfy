/**
 * The stateless OCR service: read the image as a data URL, have the model
 * extract its text, refuse blank text, have the model summarise it, and answer
 * questions against a text context. The model calls themselves are the `Model`
 * oracle; every operation returns the requests it sent alongside its result.
 */
module OcrService {
  import opened Wrappers
  import opened Text
  import opened Upstream

  datatype OcrResult = OcrResult(text: string, summary: string)

  /** A result together with the model requests made to compute it, in order. */
  datatype Run<T> = Run(value: T, calls: seq<Request>)

  const ProcessFailedMessage := "Failed to process image. Please try again."
  const NoTextMessage := "No text could be extracted from the image."
  const ReadFailedMessage := "Failed to read file as data URL"
  const ExtractFailedMessage := "Failed to extract text from image. Please try again."
  const NoSummaryMessage := "No summary available."
  const SummaryFailedMessage := "Failed to generate summary. Please try again."
  const JpegDataUrlPrefix := "data:image/jpeg;base64,"

  // The three fixed answers are written in pieces of at most twenty characters,
  // which the verifier can search one at a time (see the *HasNoRefusal lemmas).
  const NotSureMessage := "I'm not sure how " + "to respond to that. " + "Could you rephrase " + "your question?"
  const ClarificationMessage := "I couldn't find a " + "specific answer in " + "the document. " + "Could you provide " +
                                "more details or try " + "rephrasing your " + "question?"
  const QuestionFailedMessage := "Sorry, I " + "encountered an " + "error while " + "processing your " + "question."

  /** `fileToBase64`: the data URL on a string result; otherwise the rejection the reader handlers raise. */
  function FileToBase64(reader: ReaderOutcome): (r: Result<string, Thrown>)
    ensures r.Ok? <==> reader.LoadedText?
    ensures r.Ok? ==> r.value == reader.dataUrl
    ensures reader.LoadedOther? ==> r == Err(Error(ReadFailedMessage))
    ensures reader.ReaderError? ==> r == Err(NonError)
  {
    match reader
    case LoadedText(url) => Ok(url)
    case LoadedOther => Err(Error(ReadFailedMessage))
    case ReaderError => Err(NonError)
  }

  /** `processImage`'s catch: an `Error` keeps its message, anything else becomes the generic one. */
  function CaughtMessage(e: Thrown): (r: string)
    requires !e.MalformedJson?
    ensures e.Error? ==> r == e.message
    ensures e.NonError? ==> r == ProcessFailedMessage
  {
    match e
    case Error(m) => m
    case NonError => ProcessFailedMessage
  }

  /** Where the first comma of `s` is, if it has one. */
  function CommaIndex(s: string): (r: Option<nat>)
    ensures r.None? <==> ',' !in s
    ensures r.Some? ==> r.value < |s| && s[r.value] == ',' && ',' !in s[..r.value]
  {
    if s == [] then None
    else if s[0] == ',' then Some(0)
    else
      match CommaIndex(s[1..])
      case None => None
      case Some(i) =>
        assert s[..i + 1] == [s[0]] + s[1..][..i];
        Some(i + 1)
  }

  /** The longest prefix of `s` without a comma. */
  function UpToComma(s: string): (r: string)
    ensures |r| <= |s| && r == s[..|r|] && ',' !in r
    ensures |r| < |s| ==> s[|r|] == ','
  {
    match CommaIndex(s)
    case None => s
    case Some(i) => s[..i]
  }

  /** `s.split(',')[1]`: the text between the first and the second comma; undefined without a comma. */
  function SecondField(s: string): (r: Option<string>)
    ensures r.None? <==> ',' !in s
    ensures r.Some? ==> ',' !in r.value
    ensures r.Some? ==>
              var start := CommaIndex(s).value + 1;
              && start + |r.value| <= |s|
              && r.value == s[start..start + |r.value|]
              && (start + |r.value| == |s| || s[start + |r.value|] == ',')
  {
    match CommaIndex(s)
    case None => None
    case Some(i) => Some(UpToComma(s[i + 1..]))
  }

  /** `base64Image.split(',')[1] || base64Image`: the payload of a data URL, or the input when that field is missing or empty. */
  function Payload(s: string): (r: string)
    ensures ',' !in s ==> r == s
    ensures r != s ==> r != "" && ',' !in r && SecondField(s) == Some(r)
  {
    var field := SecondField(s);
    if field.Some? && field.value != "" then field.value else s
  }

  /** A comma-free `data` followed by nothing or by a comma is cut back to `data`. */
  lemma UpToCommaOfField(data: string, rest: string)
    requires ',' !in data
    requires rest == "" || rest[0] == ','
    ensures UpToComma(data + rest) == data
  {
    var t := data + rest;
    assert UpToComma(t) == t[..|data|];
  }

  /**
   * Input `header,data` followed by nothing or by further comma-separated
   * fields is stripped to exactly `data` when `data` is not empty.
   */
  lemma PayloadOfDataUrl(header: string, data: string, rest: string)
    requires ',' !in header && ',' !in data && data != ""
    requires rest == "" || rest[0] == ','
    ensures Payload(header + "," + data + rest) == data
  {
    var s := header + "," + data + rest;
    assert s[..|header|] == header && s[|header|] == ',';
    assert CommaIndex(s) == Some(|header|);
    assert s[|header| + 1..] == data + rest;
    UpToCommaOfField(data, rest);
  }

  /** A data URL whose payload is empty is sent whole. */
  lemma PayloadOfEmptyDataUrl(header: string)
    requires ',' !in header
    ensures Payload(header + ",") == header + ","
  {
    var s := header + ",";
    var i := CommaIndex(s).value;
    assert i == |header|;
    assert s[i + 1..] == "";
  }

  /** `extractTextWithOpenAI(base64Image)`: one vision request; '' without content; a fixed error on failure. */
  function ExtractTextWithOpenAI(base64Image: string, model: Model): (r: Run<Result<string, Thrown>>)
    ensures r.calls == [ExtractText(JpegDataUrlPrefix + Payload(base64Image))]
    ensures r.value.Err? <==> model(r.calls[0]).Failed?
    ensures r.value.Err? ==> r.value.error == Error(ExtractFailedMessage)
    ensures r.value.Ok? ==> r.value.value == ContentOr(model(r.calls[0]).content, "")
  {
    var request := ExtractText(JpegDataUrlPrefix + Payload(base64Image));
    match model(request)
    case Failed(_) => Run(Err(Error(ExtractFailedMessage)), [request])
    case Answered(content) => Run(Ok(ContentOr(content, "")), [request])
  }

  /** `generateSummary(text)`: never fails; falls back to a fixed text when there is no content or the call fails. */
  function GenerateSummary(text: string, model: Model): (r: Run<string>)
    ensures r.calls == [Summarize(text)]
    ensures r.value != ""
    ensures model(Summarize(text)).Failed? ==> r.value == SummaryFailedMessage
    ensures model(Summarize(text)).Answered? ==>
              r.value == ContentOr(model(Summarize(text)).content, NoSummaryMessage)
  {
    match model(Summarize(text))
    case Failed(_) => Run(SummaryFailedMessage, [Summarize(text)])
    case Answered(content) => Run(ContentOr(content, NoSummaryMessage), [Summarize(text)])
  }

  /**
   * `processImage(imageFile)`: read, extract, refuse blank text before any
   * summary request, summarise. Every failure becomes an `Error` whose message
   * is returned here.
   */
  function ProcessImage(reader: ReaderOutcome, model: Model): (r: Run<Result<OcrResult, string>>)
    ensures !reader.LoadedText? ==> r.calls == [] && r.value.Err?
    ensures reader.LoadedText? ==> |r.calls| >= 1 && r.calls[0] == ExtractText(JpegDataUrlPrefix + Payload(reader.dataUrl))
    ensures r.value.Ok? <==> |r.calls| == 2
    ensures r.value.Ok? ==> !AllWhitespace(r.value.value.text) && r.calls[1] == Summarize(r.value.value.text)
    ensures r.value.Err? ==> r.value.error != ""
  {
    match FileToBase64(reader)
    case Err(e) => Run(Err(CaughtMessage(e)), [])
    case Ok(base64Image) =>
      var extracted := ExtractTextWithOpenAI(base64Image, model);
      match extracted.value
      case Err(e) => Run(Err(CaughtMessage(e)), extracted.calls)
      case Ok(text) =>
        TrimEmptyIff(text);
        if Trim(text) == "" then Run(Err(NoTextMessage), extracted.calls)
        else
          var summary := GenerateSummary(text, model);
          Run(Ok(OcrResult(text, summary.value)), extracted.calls + summary.calls)
  }

  /** Whitespace-only extracted text fails with the fixed message, and no summary is requested. */
  lemma ProcessImageRefusesBlankText(dataUrl: string, model: Model)
    requires var c := model(ExtractText(JpegDataUrlPrefix + Payload(dataUrl)));
             c.Answered? && AllWhitespace(ContentOr(c.content, ""))
    ensures ProcessImage(LoadedText(dataUrl), model) ==
              Run(Err(NoTextMessage), [ExtractText(JpegDataUrlPrefix + Payload(dataUrl))])
  {
    TrimEmptyIff(ContentOr(model(ExtractText(JpegDataUrlPrefix + Payload(dataUrl))).content, ""));
  }

  /** Otherwise the result is the untrimmed extracted text with whatever `generateSummary` returned. */
  lemma ProcessImageKeepsText(dataUrl: string, model: Model)
    requires var c := model(ExtractText(JpegDataUrlPrefix + Payload(dataUrl)));
             c.Answered? && !AllWhitespace(ContentOr(c.content, ""))
    ensures var text := ContentOr(model(ExtractText(JpegDataUrlPrefix + Payload(dataUrl))).content, "");
            ProcessImage(LoadedText(dataUrl), model).value == Ok(OcrResult(text, GenerateSummary(text, model).value))
  {
    TrimEmptyIff(ContentOr(model(ExtractText(JpegDataUrlPrefix + Payload(dataUrl))).content, ""));
  }

  /** The messages `processImage` can fail with: the reader's, the generic one, the extraction one, the blank-text one. */
  lemma ProcessImageErrors(reader: ReaderOutcome, model: Model)
    ensures var r := ProcessImage(reader, model);
            r.value.Err? ==>
              r.value.error in {ReadFailedMessage, ProcessFailedMessage, ExtractFailedMessage, NoTextMessage}
    ensures reader.LoadedOther? ==> ProcessImage(reader, model).value == Err(ReadFailedMessage)
    ensures reader.ReaderError? ==> ProcessImage(reader, model).value == Err(ProcessFailedMessage)
    ensures reader.LoadedText? && model(ExtractText(JpegDataUrlPrefix + Payload(reader.dataUrl))).Failed? ==>
              ProcessImage(reader, model).value == Err(ExtractFailedMessage)
  {
  }

  /** Both refusal phrases contain the adjacent pairs "no" and "an", so a text that contains either has both pairs. */
  lemma RefusalPhrasePairs(s: string)
    ensures Contains(Lower(s), "no answer") ==> HasPairCI(s, 'n', 'o') && HasPairCI(s, 'a', 'n')
    ensures Contains(Lower(s), "i cannot find") ==> HasPairCI(s, 'n', 'o') && HasPairCI(s, 'a', 'n')
  {
    var p, q := "no answer", "i cannot find";
    assert p[0] == 'n' && p[1] == 'o' && p[3] == 'a' && p[4] == 'n';
    assert q[5] == 'n' && q[6] == 'o' && q[3] == 'a' && q[4] == 'n';
    if Contains(Lower(s), p) {
      ContainsGivesPair(s, p, 0);
      ContainsGivesPair(s, p, 3);
    }
    if Contains(Lower(s), q) {
      ContainsGivesPair(s, q, 5);
      ContainsGivesPair(s, q, 3);
    }
  }

  /**
   * The answer is too short or reads like a refusal (ASCII case-insensitively).
   * An answer of 20 or more characters is rejected only if it has both pairs "no" and "an".
   */
  predicate NeedsClarification(response: string)
    ensures NeedsClarification(response) && |response| >= 20 ==>
              HasPairCI(response, 'n', 'o') && HasPairCI(response, 'a', 'n')
  {
    RefusalPhrasePairs(response);
    || |response| < 20
    || Contains(Lower(response), "i cannot find")
    || Contains(Lower(response), "no answer")
  }

  /** The answer-quality filter of `askQuestion`. */
  function FilterAnswer(response: string): (r: string)
    ensures NeedsClarification(response) ==> r == ClarificationMessage
    ensures !NeedsClarification(response) ==> r == response
    ensures |r| >= 20
  {
    if NeedsClarification(response) then ClarificationMessage else response
  }

  /** The user message of the stateless question request. */
  function QuestionPrompt(question: string, context: string): (r: string)
    ensures StartsWith(r, "Document Context: " + context)
    ensures |question| <= |r| && r[|r| - |question|..] == question
  {
    "Document Context: " + context + "\n\nQuestion: " + question
  }

  /** `askQuestion(question, context)`: never fails, and what it returns is at least 20 characters long. */
  function AskQuestion(question: string, context: string, model: Model): (r: Run<string>)
    ensures r.calls == [Answer(QuestionPrompt(question, context))]
    ensures |r.value| >= 20
    ensures model(r.calls[0]).Failed? ==> r.value == QuestionFailedMessage
    ensures model(r.calls[0]).Answered? ==>
              r.value == FilterAnswer(ContentOr(model(r.calls[0]).content, NotSureMessage))
  {
    var request := Answer(QuestionPrompt(question, context));
    match model(request)
    case Failed(_) => Run(QuestionFailedMessage, [request])
    case Answered(content) => Run(FilterAnswer(ContentOr(content, NotSureMessage)), [request])
  }

  // A phrase cannot occur where one of its adjacent character pairs does not
  // (`RefusalPhrasePairs`), and each fixed answer lacks "no" or "an".

  /** A string of at least 20 characters without "no", or without "an", passes the filter. */
  lemma LackingPairPassesFilter(s: string)
    requires |s| >= 20
    requires !HasPairCI(s, 'n', 'o') || !HasPairCI(s, 'a', 'n')
    ensures !NeedsClarification(s)
  {
  }

  lemma ClarificationHeadLacksNo()
    ensures !HasPairCI("I couldn't find a ", 'n', 'o') && !HasPairCI("specific answer in ", 'n', 'o')
    ensures !HasPairCI("the document. ", 'n', 'o')
  {
  }

  lemma ClarificationTailLacksNo()
    ensures !HasPairCI("Could you provide ", 'n', 'o') && !HasPairCI("more details or try ", 'n', 'o')
    ensures !HasPairCI("rephrasing your ", 'n', 'o') && !HasPairCI("question?", 'n', 'o')
  {
  }

  /** The clarification request does not itself read like a refusal. */
  lemma ClarificationHasNoRefusal()
    ensures !NeedsClarification(ClarificationMessage)
  {
    ClarificationHeadLacksNo();
    ClarificationTailLacksNo();
    var a, b, c, d, e, f, g := "I couldn't find a ", "specific answer in ", "the document. ", "Could you provide ",
                               "more details or try ", "rephrasing your ", "question?";
    NoPairConcat(a, b, 'n', 'o');
    NoPairConcat(a + b, c, 'n', 'o');
    NoPairConcat(a + b + c, d, 'n', 'o');
    NoPairConcat(a + b + c + d, e, 'n', 'o');
    NoPairConcat(a + b + c + d + e, f, 'n', 'o');
    NoPairConcat(a + b + c + d + e + f, g, 'n', 'o');
    LackingPairPassesFilter(ClarificationMessage);
  }

  lemma NotSureHeadLacksAn()
    ensures !HasPairCI("I'm not sure how ", 'a', 'n') && !HasPairCI("to respond to that. ", 'a', 'n')
  {
  }

  lemma NotSureTailLacksAn()
    ensures !HasPairCI("Could you rephrase ", 'a', 'n') && !HasPairCI("your question?", 'a', 'n')
  {
  }

  /** The no-content fallback of `askQuestion` passes the filter. */
  lemma NotSureHasNoRefusal()
    ensures !NeedsClarification(NotSureMessage)
  {
    NotSureHeadLacksAn();
    NotSureTailLacksAn();
    var a, b, c, d := "I'm not sure how ", "to respond to that. ", "Could you rephrase ", "your question?";
    NoPairConcat(a, b, 'a', 'n');
    NoPairConcat(a + b, c, 'a', 'n');
    NoPairConcat(a + b + c, d, 'a', 'n');
    LackingPairPassesFilter(NotSureMessage);
  }

  lemma QuestionFailedHeadLacksNo()
    ensures !HasPairCI("Sorry, I ", 'n', 'o') && !HasPairCI("encountered an ", 'n', 'o')
    ensures !HasPairCI("error while ", 'n', 'o')
  {
  }

  lemma QuestionFailedTailLacksNo()
    ensures !HasPairCI("processing your ", 'n', 'o') && !HasPairCI("question.", 'n', 'o')
  {
  }

  /** The error answer of `askQuestion` would pass the filter too. */
  lemma QuestionFailedHasNoRefusal()
    ensures !NeedsClarification(QuestionFailedMessage)
  {
    QuestionFailedHeadLacksNo();
    QuestionFailedTailLacksNo();
    var a, b, c, d, e := "Sorry, I ", "encountered an ", "error while ", "processing your ", "question.";
    NoPairConcat(a, b, 'n', 'o');
    NoPairConcat(a + b, c, 'n', 'o');
    NoPairConcat(a + b + c, d, 'n', 'o');
    NoPairConcat(a + b + c + d, e, 'n', 'o');
    LackingPairPassesFilter(QuestionFailedMessage);
  }

  /** The filter leaves each of the service's fixed answers unchanged. */
  lemma FilterKeepsFixedAnswers()
    ensures FilterAnswer(ClarificationMessage) == ClarificationMessage
    ensures FilterAnswer(NotSureMessage) == NotSureMessage
    ensures FilterAnswer(QuestionFailedMessage) == QuestionFailedMessage
  {
    ClarificationHasNoRefusal();
    NotSureHasNoRefusal();
    QuestionFailedHasNoRefusal();
  }

  /** Filtering twice is filtering once. */
  lemma FilterIdempotent(response: string)
    ensures FilterAnswer(FilterAnswer(response)) == FilterAnswer(response)
  {
    ClarificationHasNoRefusal();
  }

  /** A model call with no content yields the no-content fallback itself, unfiltered away. */
  lemma AskQuestionWithoutContent(question: string, context: string, model: Model)
    requires model(Answer(QuestionPrompt(question, context))) == Answered(None)
    ensures AskQuestion(question, context, model).value == NotSureMessage
  {
    NotSureHasNoRefusal();
  }
}
