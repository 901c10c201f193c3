/**
 * `OCRService` of the session API: describes an image with the model, keeps the
 * result as a session in a `LocalStorage` view with prefix "ocr-sessions", and
 * answers questions against a stored session's summary.
 */
module Api {
  import opened Wrappers
  import opened Upstream
  import opened WebStorage
  import opened Storage

  datatype ImageSession = ImageSession(id: string, summary: string, imageUrl: string, timestamp: int)

  const SessionsPrefix := "ocr-sessions"
  const SessionNotFoundMessage := "Session not found"
  const ContextLabel := "Context from image: "

  class OcrSessionService {
    const storage: LocalStorage<ImageSession>

    /** The service's view always uses the "ocr-sessions" namespace over a well-formed table. */
    ghost predicate Valid()
      reads this, storage.medium
    {
      storage.prefix == SessionsPrefix && storage.medium.Valid()
    }

    /** The constructor: a view of the browser table with the fixed prefix "ocr-sessions". */
    constructor (medium: BrowserStore, codec: Codec<ImageSession>)
      requires medium.Valid()
      ensures Valid() && storage.medium == medium && storage.codec == codec
    {
      storage := new LocalStorage(SessionsPrefix, medium, codec);
    }

    /**
     * `generateImageSummary(image)`: one vision request with the data URL as it
     * was read, then a session stored under its own id and returned. A failed
     * read or request is rethrown unchanged and nothing is stored. The UUID,
     * the object URL and the clock reading are the values passed in.
     */
    method GenerateImageSummary(image: Result<string, Thrown>, model: Model, id: string, objectUrl: string, now: int)
      returns (r: Result<ImageSession, Thrown>, calls: seq<Request>)
      requires Valid()
      modifies storage.medium
      ensures Valid()
      ensures r.Ok? <==> image.Ok? && model(DescribeImage(image.value)).Answered?
      ensures image.Err? ==> r == Err(image.error) && calls == []
      ensures image.Ok? ==> calls == [DescribeImage(image.value)]
      ensures image.Ok? && model(DescribeImage(image.value)).Failed? ==> r == Err(model(DescribeImage(image.value)).thrown)
      ensures r.Err? ==> storage.medium.entries == old(storage.medium.entries) && storage.medium.keys == old(storage.medium.keys)
      ensures r.Ok? ==> r.value == ImageSession(id, ContentOr(model(DescribeImage(image.value)).content, ""), objectUrl, now)
      ensures r.Ok? ==> storage.medium.entries == old(storage.medium.entries)[Prefixed(SessionsPrefix, id) := storage.codec.encode(r.value)]
      ensures r.Ok? ==> storage.medium.keys == if Prefixed(SessionsPrefix, id) in old(storage.medium.entries) then old(storage.medium.keys)
                                              else old(storage.medium.keys) + [Prefixed(SessionsPrefix, id)]
    {
      if image.Err? {
        return Err(image.error), [];
      }
      calls := [DescribeImage(image.value)];
      var response := model(DescribeImage(image.value));
      if response.Failed? {
        return Err(response.thrown), calls;
      }
      var session := ImageSession(id, ContentOr(response.content, ""), objectUrl, now);
      storage.SetItem(session.id, session);
      r := Ok(session);
    }

    /**
     * `askQuestion(questionText, sessionId)`: looks the session up first; an
     * unknown id fails with "Session not found" before any model request. The
     * request carries the stored summary as its system message.
     */
    method AskQuestion(question: string, sessionId: string, model: Model) returns (r: Result<string, Thrown>, calls: seq<Request>)
      requires Valid()
      ensures storage.GetItem(sessionId) == Ok(None) ==> r == Err(Error(SessionNotFoundMessage)) && calls == []
      ensures storage.GetItem(sessionId).Err? ==> r == Err(storage.GetItem(sessionId).error) && calls == []
      ensures storage.GetItem(sessionId).Ok? && storage.GetItem(sessionId).value.Some? ==>
                var request := SessionAnswer(ContextLabel + storage.GetItem(sessionId).value.value.summary, question);
                && calls == [request]
                && (model(request).Failed? ==> r == Err(model(request).thrown))
                && (model(request).Answered? ==> r == Ok(ContentOr(model(request).content, "")))
    {
      var found := storage.GetItem(sessionId);
      if found.Err? {
        return Err(found.error), [];
      }
      if found.value.None? {
        return Err(Error(SessionNotFoundMessage)), [];
      }
      var request := SessionAnswer(ContextLabel + found.value.value.summary, question);
      calls := [request];
      var response := model(request);
      if response.Failed? {
        return Err(response.thrown), calls;
      }
      r := Ok(ContentOr(response.content, ""));
    }

    /** `getSessions()`: whatever the view's `getAllItems()` returns. */
    method GetSessions() returns (r: Result<seq<ImageSession>, Thrown>)
      requires Valid()
      ensures r == Collect(storage.medium.keys, storage.medium.entries, SessionsPrefix, storage.codec)
    {
      r := storage.GetAllItems();
    }
  }

  /**
   * A session just created is found by its id: asking about it makes the
   * model request with its summary, and the answer is that request's outcome
   * rather than "Session not found".
   */
  method CreateThenAsk(service: OcrSessionService, image: string, model: Model, id: string, objectUrl: string, now: int, question: string)
    returns (session: Result<ImageSession, Thrown>, answer: Result<string, Thrown>, calls: seq<Request>)
    requires service.Valid() && Faithful(service.storage.codec)
    requires model(DescribeImage(image)).Answered?
    modifies service.storage.medium
    ensures session.Ok? && session.value.id == id
    ensures calls == [SessionAnswer(ContextLabel + session.value.summary, question)]
    ensures var response := model(SessionAnswer(ContextLabel + session.value.summary, question));
            answer == if response.Failed? then Err(response.thrown) else Ok(ContentOr(response.content, ""))
  {
    var created;
    session, created := service.GenerateImageSummary(Ok(image), model, id, objectUrl, now);
    SetThenGet(old(service.storage.medium.entries), SessionsPrefix, id, session.value, service.storage.codec);
    answer, calls := service.AskQuestion(question, id, model);
  }

  /**
   * A session created under a new id is listed last: `getSessions()`
   * afterwards is the previous list followed by it, or the same failure.
   */
  method CreateThenList(service: OcrSessionService, image: string, model: Model, id: string, objectUrl: string, now: int)
    returns (before: Result<seq<ImageSession>, Thrown>, session: Result<ImageSession, Thrown>, after: Result<seq<ImageSession>, Thrown>)
    requires service.Valid() && Faithful(service.storage.codec)
    requires model(DescribeImage(image)).Answered?
    requires Prefixed(SessionsPrefix, id) !in service.storage.medium.entries
    modifies service.storage.medium
    ensures session.Ok? && session.value.id == id
    ensures before.Ok? ==> after == Ok(before.value + [session.value])
    ensures before.Err? ==> after == before
  {
    before := service.GetSessions();
    var created;
    session, created := service.GenerateImageSummary(Ok(image), model, id, objectUrl, now);
    SetFreshThenCollect(old(service.storage.medium.keys), old(service.storage.medium.entries), SessionsPrefix, id, session.value, service.storage.codec);
    after := service.GetSessions();
  }

  /** Two sessions created one after the other with distinct ids are both retrievable afterwards. */
  lemma TwoSessionsCoexist(entries: map<string, string>, codec: Codec<ImageSession>, s1: ImageSession, s2: ImageSession)
    requires Faithful(codec) && s1.id != s2.id
    ensures var after := entries[Prefixed(SessionsPrefix, s1.id) := codec.encode(s1)][Prefixed(SessionsPrefix, s2.id) := codec.encode(s2)];
            Lookup(after, SessionsPrefix, s1.id, codec) == Ok(Some(s1)) &&
            Lookup(after, SessionsPrefix, s2.id, codec) == Ok(Some(s2))
  {
    var once := entries[Prefixed(SessionsPrefix, s1.id) := codec.encode(s1)];
    SetThenGet(entries, SessionsPrefix, s1.id, s1, codec);
    SetLeavesOtherKeys(once, SessionsPrefix, s2.id, codec.encode(s2), s1.id, codec);
    SetThenGet(once, SessionsPrefix, s2.id, s2, codec);
  }
}
