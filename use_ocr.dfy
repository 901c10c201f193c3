/**
 * The `useOCR` hook: four pieces of component state and the `processImage` and
 * `reset` actions that update them. React's state setters become assignments
 * to the fields; the awaited service call becomes the settled outcome passed in.
 */
module UseOcr {
  import opened Wrappers
  import opened Upstream
  import OcrService
  import Str = Text

  /** A selected file, as the browser's reader will see it. */
  datatype ImageFile = ImageFile(name: string, reader: ReaderOutcome)

  const NoFileMessage := "No image file provided"
  const NoResultMessage := "Failed to process image: No result returned"

  /**
   * What the `catch` block can read from the error: the message of an HTTP
   * error response (`err.response.data.error.message`) and the error's own
   * `message`; either may be missing.
   */
  datatype Caught = Caught(responseMessage: Option<string>, message: Option<string>)

  /** How the awaited `ocrService.processImage` call settled. */
  datatype Settled = Resolved(value: Option<OcrService.OcrResult>) | Rejected(err: Caught)

  /** The message shown for a caught error: the first non-empty of the two, else the generic one. */
  function ErrorMessage(c: Caught): (r: string)
    ensures r != ""
    ensures r == OcrService.ProcessFailedMessage || Some(r) == c.responseMessage || Some(r) == c.message
    ensures c.responseMessage.Some? && c.responseMessage.value != "" ==> r == c.responseMessage.value
    ensures c.message.Some? && c.message.value != "" && c.responseMessage.GetOr("") == "" ==> r == c.message.value
  {
    if c.responseMessage.GetOr("") != "" then c.responseMessage.value
    else if c.message.GetOr("") != "" then c.message.value
    else OcrService.ProcessFailedMessage
  }

  /**
   * How the service's `processImage` settles: with its result, or rejected
   * with an `Error` whose message is the service's. It never resolves to null.
   */
  function ServiceSettlement(file: ImageFile, model: Model): (r: Settled)
    ensures r != Resolved(None)
    ensures r.Resolved? <==> OcrService.ProcessImage(file.reader, model).value.Ok?
    ensures r.Resolved? ==> r.value == Some(OcrService.ProcessImage(file.reader, model).value.value)
    ensures r.Rejected? ==> r.err.responseMessage == None && r.err.message == Some(OcrService.ProcessImage(file.reader, model).value.error)
  {
    match OcrService.ProcessImage(file.reader, model).value
    case Ok(result) => Resolved(Some(result))
    case Err(m) => Rejected(Caught(None, Some(m)))
  }

  /** A rejection from the service is shown with the service's own message, never the generic fallback in its place. */
  lemma ServiceErrorShownVerbatim(file: ImageFile, model: Model)
    requires OcrService.ProcessImage(file.reader, model).value.Err?
    ensures ErrorMessage(ServiceSettlement(file, model).err) == OcrService.ProcessImage(file.reader, model).value.error
  {
  }

  class OcrHook {
    var image: Option<ImageFile>
    var loading: bool
    var error: Option<string>
    var result: Option<OcrService.OcrResult>

    /** The initial state: no image, not loading, no error, no result. */
    constructor ()
      ensures image == None && !loading && error == None && result == None
    {
      image := None;
      loading := false;
      error := None;
      result := None;
    }

    /** The `text` the hook exposes: the result's text, or "" without a result. */
    function Text(): (r: string)
      reads this
      ensures result.None? ==> r == ""
      ensures result.Some? ==> r == result.value.text
    {
      if result.Some? && result.value.text != "" then result.value.text else ""
    }

    /** The `summary` the hook exposes: the result's summary, or "" without a result. */
    function Summary(): (r: string)
      reads this
      ensures result.None? ==> r == ""
      ensures result.Some? ==> r == result.value.summary
    {
      if result.Some? && result.value.summary != "" then result.value.summary else ""
    }

    /**
     * `processImage(imageFile)`. Without a file only the error is set. With a
     * file, the image is recorded and the error cleared; a result is stored
     * and returned; a null result or a rejection leaves the previous result
     * and sets the error message; loading always ends false.
     */
    method ProcessImage(file: Option<ImageFile>, settled: Settled) returns (r: Option<OcrService.OcrResult>)
      modifies this
      ensures file.None? ==>
                r == None && error == Some(NoFileMessage) &&
                image == old(image) && loading == old(loading) && result == old(result)
      ensures file.Some? ==> image == file && !loading
      ensures file.Some? && settled == Resolved(None) ==> r == None && result == old(result) && error == Some(NoResultMessage)
      ensures file.Some? && settled.Resolved? && settled.value.Some? ==> r == settled.value && result == settled.value && error == None
      ensures file.Some? && settled.Rejected? ==> r == None && result == old(result) && error == Some(ErrorMessage(settled.err))
    {
      if file.None? {
        error := Some(NoFileMessage);
        return None;
      }
      loading := true;
      error := None;
      image := file;
      var caught: Option<Caught> := None;
      match settled {
        case Resolved(value) =>
          if value.Some? {
            result := value;
            r := value;
          } else {
            caught := Some(Caught(None, Some(NoResultMessage)));
          }
        case Rejected(err) =>
          caught := Some(err);
      }
      if caught.Some? {
        error := Some(ErrorMessage(caught.value));
        r := None;
      }
      loading := false;
    }

    /** `processImage` awaiting the real service: its error message or its result ends up in the hook's state. */
    method ProcessWithService(file: ImageFile, model: Model) returns (r: Option<OcrService.OcrResult>)
      modifies this
      ensures image == Some(file) && !loading
      ensures var outcome := OcrService.ProcessImage(file.reader, model).value;
              && (outcome.Err? ==> r == None && error == Some(outcome.error) && result == old(result))
              && (outcome.Ok? ==>
                    r == Some(outcome.value) && result == Some(outcome.value) && error == None &&
                    Text() == outcome.value.text && Summary() == outcome.value.summary)
      ensures r.Some? ==> !Str.AllWhitespace(Text())
    {
      r := ProcessImage(Some(file), ServiceSettlement(file, model));
    }

    /** `reset()`: clears image, result and error; `loading` is left as it is. */
    method Reset()
      modifies this
      ensures image == None && result == None && error == None && loading == old(loading)
      ensures Text() == "" && Summary() == ""
    {
      image := None;
      result := None;
      error := None;
    }
  }
}
