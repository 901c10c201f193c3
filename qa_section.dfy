/**
 * The question-and-answer panel's `handleSubmit`: the user's message and an
 * empty assistant placeholder are appended, then the placeholder is filled in
 * with the answer, or an apology is appended when the request throws.
 * `Date.now()` readings are parameters.
 */
module QaSection {
  import opened Wrappers
  import opened Text
  import opened Upstream
  import OcrService

  datatype Role = User | Assistant

  /** A chat message; an absent `isLoading` is `false`. */
  datatype Message = Message(id: string, role: Role, content: string, timestamp: nat, isLoading: bool)

  const ErrorReplyText := "Sorry, I encountered an error while processing your question. Please try again."

  /** An id built from a tag and a `Date.now()` reading: the tag, then the reading's decimal digits. */
  function ClockId(tag: string, now: nat): (r: string)
    ensures |r| > |tag| && r[..|tag|] == tag
    ensures forall i :: |tag| <= i < |r| ==> '0' <= r[i] <= '9'
    ensures DigitsValue(r[|tag|..]) == now
  {
    var r := tag + NatToString(now);
    assert r[|tag|..] == NatToString(now);
    NatToStringValue(now);
    r
  }

  /** Under one tag, ids from different clock readings differ. */
  lemma ClockIdInjective(tag: string, t: nat, u: nat)
    ensures ClockId(tag, t) == ClockId(tag, u) <==> t == u
  {
  }

  /** `user-${Date.now()}`, the id of a user message. */
  function UserId(now: nat): string { ClockId("user-", now) }

  /** `temp-${Date.now()}`, the id of an assistant placeholder. */
  function TempId(now: nat): string { ClockId("temp-", now) }

  /** A user message id and a placeholder id never coincide, whatever the clock readings. */
  lemma UserIdIsNotTempId(t1: nat, t2: nat)
    ensures UserId(t1) != TempId(t2)
  {
    assert UserId(t1)[0] == 'u' && TempId(t2)[0] == 't';
  }

  /**
   * The `messages.map` that fills in the placeholder: every message carrying
   * the id gets the answer as content and stops loading; the others are kept.
   */
  function ReplaceById(ms: seq<Message>, id: string, content: string): (r: seq<Message>)
    ensures |r| == |ms|
    ensures forall i :: 0 <= i < |ms| && ms[i].id != id ==> r[i] == ms[i]
    ensures forall i :: 0 <= i < |ms| && ms[i].id == id ==> r[i] == ms[i].(content := content, isLoading := false)
  {
    if ms == [] then []
    else
      var m := ms[0];
      [if m.id == id then m.(content := content, isLoading := false) else m] + ReplaceById(ms[1..], id, content)
  }

  /**
   * The messages after one submitted question: the history, the trimmed
   * question as a user message, the placeholder, and then either the answer
   * written into every message with the placeholder's id, or the placeholder
   * left as it is followed by the apology.
   */
  function Exchange(history: seq<Message>, question: string, t1: nat, t2: nat, t3: nat, reply: Result<string, Thrown>): (r: seq<Message>)
    ensures |r| == |history| + (if reply.Ok? then 2 else 3)
    ensures r[|history|] == Message(UserId(t1), User, question, t1, false)
  {
    UserIdIsNotTempId(t1, t2);
    var asked := history + [Message(UserId(t1), User, question, t1, false), Message(TempId(t2), Assistant, "", t2, true)];
    match reply
    case Ok(answer) => ReplaceById(asked, TempId(t2), answer)
    case Err(_) => asked + [Message(NatToString(t3), Assistant, ErrorReplyText, t3, false)]
  }

  /** Earlier messages are kept as they were, unless one of them has the new placeholder's id. */
  lemma ExchangeKeepsHistory(history: seq<Message>, question: string, t1: nat, t2: nat, t3: nat, reply: Result<string, Thrown>)
    requires reply.Ok? ==> forall m :: m in history ==> m.id != TempId(t2)
    ensures Exchange(history, question, t1, t2, t3, reply)[..|history|] == history
  {
    var r := Exchange(history, question, t1, t2, t3, reply);
    forall i | 0 <= i < |history|
      ensures r[i] == history[i]
    {
      assert history[i] in history;
    }
  }

  /** An answer lands in the placeholder's slot, which stops loading. */
  lemma ExchangeAnswered(history: seq<Message>, question: string, t1: nat, t2: nat, t3: nat, answer: string)
    ensures Exchange(history, question, t1, t2, t3, Ok(answer))[|history| + 1] == Message(TempId(t2), Assistant, answer, t2, false)
  {
  }

  /** A thrown request leaves the placeholder loading and empty, and the apology comes after it. */
  lemma ExchangeFailed(history: seq<Message>, question: string, t1: nat, t2: nat, t3: nat, e: Thrown)
    ensures var r := Exchange(history, question, t1, t2, t3, Err(e));
            && r[|history| + 1] == Message(TempId(t2), Assistant, "", t2, true)
            && r[|history| + 2] == Message(NatToString(t3), Assistant, ErrorReplyText, t3, false)
  {
  }

  /**
   * Placeholder ids are not unique: an earlier message with the same id (two
   * questions within one millisecond) is overwritten by the later answer too.
   */
  lemma ExchangeOverwritesSameIdPlaceholder(history: seq<Message>, question: string, t1: nat, t2: nat, t3: nat, answer: string, i: nat)
    requires i < |history| && history[i].id == TempId(t2)
    ensures Exchange(history, question, t1, t2, t3, Ok(answer))[i] == history[i].(content := answer, isLoading := false)
  {
  }

  /** A placeholder left by an earlier, different clock reading keeps its content when the answer arrives. */
  lemma ExchangeKeepsEarlierPlaceholder(history: seq<Message>, question: string, t1: nat, t2: nat, t3: nat, answer: string, u: nat, i: nat)
    requires i < |history| && history[i].id == TempId(u) && u != t2
    ensures Exchange(history, question, t1, t2, t3, Ok(answer))[i] == history[i]
  {
    ClockIdInjective("temp-", u, t2);
  }

  /** `question.trim()`: the text a submission sends, and blank exactly when the input is only whitespace. */
  function CurrentQuestion(question: string): string {
    Trim(question)
  }

  class Chat {
    var question: string
    var messages: seq<Message>
    var isLoading: bool

    /** The initial state: empty input, no messages, not loading. */
    constructor ()
      ensures question == "" && messages == [] && !isLoading
    {
      question := "";
      messages := [];
      isLoading := false;
    }

    /**
     * `handleSubmit`: ignored for a blank question or while loading;
     * otherwise the input is cleared, the exchange is appended and loading
     * ends false. `reply` is how the awaited `askQuestion` settled.
     */
    method HandleSubmit(t1: nat, t2: nat, t3: nat, reply: Result<string, Thrown>)
      modifies this
      ensures CurrentQuestion(old(question)) == "" || old(isLoading) ==>
                question == old(question) && messages == old(messages) && isLoading == old(isLoading)
      ensures CurrentQuestion(old(question)) != "" && !old(isLoading) ==>
                && question == "" && !isLoading
                && messages == Exchange(old(messages), CurrentQuestion(old(question)), t1, t2, t3, reply)
    {
      var currentQuestion := CurrentQuestion(question);
      if currentQuestion == "" || isLoading {
        return;
      }
      Ask(currentQuestion, t1, t2, t3, reply);
    }

    /**
     * The part of `handleSubmit` past its guard: the user message is appended
     * and the input cleared, the placeholder is appended while loading, and the
     * settled request fills it in or appends the apology.
     */
    method Ask(currentQuestion: string, t1: nat, t2: nat, t3: nat, reply: Result<string, Thrown>)
      modifies this
      ensures question == "" && !isLoading
      ensures messages == Exchange(old(messages), currentQuestion, t1, t2, t3, reply)
    {
      var userMessage := Message(UserId(t1), User, currentQuestion, t1, false);
      question := "";
      messages := messages + [userMessage];
      isLoading := true;
      var tempMessageId := TempId(t2);
      var placeholder := Message(tempMessageId, Assistant, "", t2, true);
      messages := messages + [placeholder];
      assert messages == old(messages) + [userMessage, placeholder];
      match reply {
        case Ok(answer) =>
          messages := ReplaceById(messages, tempMessageId, answer);
        case Err(_) =>
          messages := messages + [Message(NatToString(t3), Assistant, ErrorReplyText, t3, false)];
      }
      isLoading := false;
    }

    /**
     * `handleSubmit` against the real `askQuestion`, which never throws: the
     * one request carries the trimmed question, and the placeholder's slot
     * receives that answer, of at least 20 characters, never the apology.
     */
    method SubmitWithService(context: string, model: Model, t1: nat, t2: nat, t3: nat) returns (calls: seq<Request>)
      requires CurrentQuestion(question) != "" && !isLoading
      modifies this
      ensures calls == [Answer(OcrService.QuestionPrompt(CurrentQuestion(old(question)), context))]
      ensures |messages| == |old(messages)| + 2
      ensures messages[|old(messages)| + 1].id == TempId(t2) && !messages[|old(messages)| + 1].isLoading
      ensures |messages[|old(messages)| + 1].content| >= 20
      ensures question == "" && !isLoading
      ensures messages == Exchange(old(messages), CurrentQuestion(old(question)), t1, t2, t3,
                                   Ok(OcrService.AskQuestion(CurrentQuestion(old(question)), context, model).value))
    {
      var asked := OcrService.AskQuestion(CurrentQuestion(question), context, model);
      ExchangeAnswered(messages, CurrentQuestion(question), t1, t2, t3, asked.value);
      HandleSubmit(t1, t2, t3, Ok(asked.value));
      calls := asked.calls;
    }
  }
}
