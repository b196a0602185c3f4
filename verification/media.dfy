/** `download_image` and `analyze_image` of `main.py`, with their external calls as inputs. */
module Media {

  import opened Wrappers
  import opened Strings
  import opened Records
  import Base64

  /** Payloads smaller than this are not crop photos (stickers, thumbnails). */
  const MinImageBytes := 20000

  /**
   The outcome of `requests.get(media_url, auth=..., timeout=12)`: the final
   response, or an exception (timeout, connection error, ...).
   */
  datatype HttpOutcome = Response(status: int, content: seq<Base64.Byte>) | TransportError

  /** The statuses `raise_for_status` raises on. */
  predicate IsHttpError(status: int) {
    400 <= status < 600
  }

  /**
   `download_image`: the Base64 text of a large enough payload, `None` for
   a failed request, an error status or a payload under the size floor.
   */
  function DownloadImage(fetched: HttpOutcome): (r: Option<string>)
    ensures r.Some? <==> fetched.Response? && !IsHttpError(fetched.status) && |fetched.content| >= MinImageBytes
    ensures r.Some? ==> Base64.Decode(r.value) == Some(fetched.content)
    ensures r.Some? ==> |r.value| > 0
  {
    match fetched
    case TransportError => None
    case Response(status, content) =>
      if IsHttpError(status) then None
      else if |content| < MinImageBytes then None
      else
        Base64.RoundTrip(content);
        Some(Base64.Encode(content))
  }

  /**
   The outcome of the chat-completion call: an exception, or the returned
   message content (`None` when the model sent no content).
   */
  datatype Completion = CallFailed | Completed(content: Option<string>)

  const AiFailed := "AI failed"
  const AiEmpty := "AI returned empty"

  /**
   `analyze_image`: the decoded reply, with every failure turned into an
   escalating sentinel. `decode` stands for `json.loads`; `None` is the
   exception it raises on text that is not JSON.
   */
  function AnalyzeImage(completion: Completion, decode: string -> Option<JsonValue>): (r: JsonValue)
    ensures completion.CallFailed? ==> r == Object(Sentinel(AiFailed))
    ensures completion == Completed(None) || completion == Completed(Some("")) ==> r == Object(Sentinel(AiEmpty))
    ensures completion.Completed? && completion.content.Some? && completion.content.value != ""
            ==> r == (match decode(Strip(completion.content.value))
                      case Some(v) => v
                      case None => Object(Sentinel(AiFailed)))
  {
    match completion
    case CallFailed => Object(Sentinel(AiFailed))
    case Completed(content) =>
      if content.None? || content.value == "" then Object(Sentinel(AiEmpty))
      else
        match decode(Strip(content.value))
        case None => Object(Sentinel(AiFailed))
        case Some(v) => v
  }

  /**
   Whatever the model does, the result is a failure sentinel or exactly what
   the decoder made of the stripped reply; a sentinel always escalates.
   */
  lemma AnalyzeImageOutcomes(completion: Completion, decode: string -> Option<JsonValue>)
    ensures var r := AnalyzeImage(completion, decode);
      || r == Object(Sentinel(AiFailed))
      || r == Object(Sentinel(AiEmpty))
      || (completion.Completed? && completion.content.Some?
          && decode(Strip(completion.content.value)) == Some(r))
  {
  }
}
