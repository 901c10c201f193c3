/**
 * The browser and network collaborators the services await, reduced to the
 * values they settle with. Nothing here is computed by the application: a model
 * call is an arbitrary function from the request it is sent to the completion it
 * yields, and a FileReader run is one of its three possible endings.
 */
module Upstream {
  import opened Wrappers

  /** The part of each chat-completion request that depends on the application's data. */
  datatype Request =
    | ExtractText(imageUrl: string)            // vision request of `extractTextWithOpenAI`
    | Summarize(text: string)                  // request of `generateSummary`
    | Answer(prompt: string)                   // request of the stateless `askQuestion`
    | DescribeImage(imageUrl: string)          // request of `generateImageSummary`
    | SessionAnswer(system: string, question: string)  // request of the session `askQuestion`

  /**
   * How a chat-completion call settles: it resolves with the first choice's
   * message content (absent when there is no choice or no content), or it rejects.
   */
  datatype Completion = Answered(content: Option<string>) | Failed(thrown: Thrown)

  /** The external model: the completion each request would receive. */
  type Model = Request -> Completion

  /** `content || fallback`: the content when it is present and non-empty, else the fallback. */
  function ContentOr(content: Option<string>, fallback: string): (r: string)
    ensures content.Some? && content.value != "" ==> r == content.value
    ensures content.None? || content.value == "" ==> r == fallback
  {
    if content.Some? && content.value != "" then content.value else fallback
  }

  /**
   * How `FileReader.readAsDataURL` ends: `onload` with a string result, `onload`
   * with a result that is not a string, or `onerror` with a ProgressEvent.
   */
  datatype ReaderOutcome = LoadedText(dataUrl: string) | LoadedOther | ReaderError
}
