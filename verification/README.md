# AgriAssist message pipeline in Dafny

AgriAssist is a WhatsApp crop-disease assistant. A farmer sends a photo of a
crop to the `/whatsapp` webhook. The service works through these steps:

1. It normalises the sender and detects a reply language, Tamil or Hindi.
2. It admits at most one image per sender every two minutes.
3. It downloads the photo, rejecting payloads under 20 000 bytes, and Base64-encodes it.
4. It asks a vision model for a JSON diagnosis. Any failure becomes an
   escalating sentinel such as `{"escalate": true, "diagnosis": "AI failed"}`.
5. It renders a localised reply and optionally synthesises an MP3 of it.
6. It stores a case row. An operator dashboard can later escalate that row to
   an expert.

This project models that pipeline (`main.py`) and its helpers (`utils.py`) as
pure functions over immutable data. Each external call is an input: the clocks,
the HTTP download, the model's completion, the JSON decoder, speech synthesis
and the fresh file name. The project proves what each step promises.

Modules, in pipeline order:

- `Wrappers`: `Option`.
- `Strings`: the Python `str` operations the code relies on. These are
  `startswith`, `in`, `lower`, `strip` with Python's exact whitespace set,
  `rstrip`, `split`, `join` and `str(int)`, each with an independent
  characterisation.
- `Base64`: the encoder of section 4 of RFC 4648, with a decoder as its inverse.
- `Language`: `detect_language`, both as written and corrected (see Findings).
- `RateLimit`: `can_send_image` over the `rate_limit` table. Time is counted in
  microseconds, the resolution of `datetime`.
- `Records`: the diagnosis object and the decoded JSON value.
- `Media`: `download_image` and `analyze_image`.
- `Reply`: `format_reply`.
- `Utils`: `SYSTEM_PROMPT_TEMPLATE.format`, `get_structured_prompt` and the URL
  `text_to_speech` returns.
- `Webhook`: `whatsapp_webhook` as one step over the stored state, split into
  what it writes (`Effect`) and what it answers (`Answer`). It also holds the
  consistency invariant kept over any run of messages. The reply language is
  `detect_language` as written.
- `Dashboard`: the dashboard's escalate action on the stored cases.

The model follows the code in three places where a reader might expect otherwise:

- `format_reply` apologises whenever the diagnosis is empty or escalates, even
  when it carries a disease name.
- The "unknown" placeholder for the treatment steps appears only when the key
  is absent. An empty list renders as nothing.
- The rate limiter reads and then writes without any atomicity. The model treats
  messages one after another and claims nothing about concurrent senders.

## Model

| member | source | states |
|---|---|---|
| Language.DetectLanguageAsWritten | main.py:62-69 | As written, every message gets one of the two supported codes, `ta` or `hi`. |
| Language.DetectLanguage | main.py:62-69 | Corrected, every message still gets `ta` or `hi`. This is only the corrected half of the finding below; the webhook uses the as-written function. |
| Language.DetectLanguageAsWrittenByBody | main.py:62-69 | As written, the language is Tamil exactly when the lower-cased body contains `ta` or the Tamil word for Tamil. The phone number never changes the outcome. |
| Language.AreaCodeNeverTamilNadu | main.py:66-68 | As written, the sliced area code of any `whatsapp:+91` number starts with `1`, so it is never one of the Tamil Nadu codes. |
| Language.ChennaiNumberAsWritten | main.py:66-68 | A `+9144…` number with an empty body gets Hindi as written and Tamil once the slice is corrected. |
| Language.TamilNaduNumbers | main.py:66-68 | Corrected: with no keyword in the body, an Indian number gets Tamil exactly when its two digits after `+91` are a Tamil Nadu code. |
| Language.AreaCodeDigits | main.py:67 | The corrected area code of `whatsapp:+91ab…` is `ab`. |
| Language.KeywordsDecideAlike | main.py:63-65 | When the body holds a keyword, the corrected and the as-written detection agree, and the result is Tamil exactly when a Tamil keyword is present. |
| Language.TamilKeywordsReduce | main.py:64 | A Tamil keyword occurs in the body exactly when `ta` or the Tamil word occurs, because `tamil` contains `ta`. |
| Language.HindiKeywordsReduce | main.py:65 | A Hindi keyword occurs in the body exactly when `hi` or the Hindi word occurs. |
| Language.TamilBeforeHindi | main.py:64-65 | As written, the Tamil list is tried first, so a body containing both `ta` and `hi` is answered in Tamil. |
| RateLimit.NormalizePhone | main.py:76-78 | The normalised sender carries the `whatsapp:` prefix, has no surrounding whitespace, and ends with the stripped sender. A sender that already has the prefix and no surrounding whitespace is returned unchanged. |
| RateLimit.NormalizeIdempotent | main.py:158-160 | Normalising an already normalised sender changes nothing, so the webhook and the limiter use the same key. |
| RateLimit.CanSendImage | main.py:74-101 | A sender is admitted exactly when it has no entry, or its entry parses and is at least two minutes old. A rejection leaves the table as it was. An admission stores the current instant under the sender and leaves every other sender's entry untouched. |
| RateLimit.CooldownWindow | main.py:92-93 | After an admission at `t1`, the same sender is admitted at `t2` exactly when `t2 - t1` is at least two minutes. |
| RateLimit.UnparseableBlocksForever | main.py:85-93 | A stored timestamp that does not parse blocks its sender on every later call and is never rewritten. |
| RateLimit.RejectionsWriteNothing | main.py:92-93 | A run of calls that are all rejected leaves the table unchanged. |
| Base64.Encode | main.py:110 | The Base64 text has four characters for every started group of three bytes. |
| Base64.RoundTrip | main.py:110 | Decoding the Base64 text gives back exactly the downloaded bytes. |
| Media.DownloadImage | main.py:104-113 | A text is returned exactly when the request succeeded with a status below 400 or at least 600 and the payload has at least 20 000 bytes. That text is non-empty and decodes to the payload. |
| Media.AnalyzeImage | main.py:116-142 | A failed call gives the "AI failed" sentinel. Missing or empty content gives the "AI returned empty" sentinel. Otherwise the result is what the decoder makes of the stripped content, or "AI failed" when it cannot decode it. |
| Media.AnalyzeImageOutcomes | main.py:134-142 | The result is always a sentinel or exactly the decoder's value for the stripped model reply. |
| Records.Sentinel | main.py:136 | A failure sentinel escalates, is not empty, and carries its marker as the diagnosis. |
| Reply.FormatReply | main.py:145-153 | The apology in the reply language comes back exactly when the diagnosis is empty or escalates. Otherwise the reply contains the disease name (or the placeholder), the confidence followed by `%`, `₹` followed by the cost, and the joined steps between their labels. |
| Reply.StepsPlaceholder | main.py:151 | The "unknown" word stands in for the steps only when the key is missing. An empty list renders as nothing. |
| Reply.ReplyFallsBackToHindi | main.py:147-153 | Every language code other than `ta` gets the Hindi reply. |
| Reply.RenderShowsCost | main.py:153 | The rendered reply contains `₹` followed by the cost and ends with a digit. |
| Reply.RenderShowsName | main.py:153 | The rendered reply contains the disease name. |
| Strings.ShowIntParses | main.py:153 | The decimal rendering of an integer reads back as that integer. |
| Strings.StripUnique | main.py:137 | `strip` of a core wrapped in whitespace, where the core has no whitespace at either end, is that core. |
| Strings.StripIdempotent | main.py:76 | Stripping an already stripped string changes nothing, so `can_send_image` stripping the sender the webhook stripped at main.py:158 is harmless. |
| Strings.SplitJoin | main.py:67 | `split` undoes `join` when no part contains the separator. |
| Utils.FormatEscaped | utils.py:15-24 | In a format string, doubled braces render as single ones, so escaped text comes out as written. |
| Utils.FormatTemplate | utils.py:38 | A template of escaped text, one field naming the key, and escaped text renders as the text with the value in place of the field. |
| Utils.PromptRenders | utils.py:10-27 | Formatting the system-prompt template with an instruction gives the prompt text with the instruction after its label, between the template's newlines. |
| Utils.GetStructuredPrompt | utils.py:35-39 | The result is one system message whose content is the whole rendered template, JSON schema included, with its doubled braces as single ones and its surrounding newlines stripped. The content ends with the instruction label followed by the language's instruction, and has no surrounding whitespace. |
| Utils.PromptFallsBackToTamil | utils.py:37 | A language code other than `ta` or `hi` gets the Tamil instruction and the Tamil prompt. |
| Utils.PromptPerLanguage | utils.py:29-32 | The Tamil and Hindi prompts each end with their own instruction. |
| Utils.TextToSpeech | utils.py:49-66 | A URL comes back exactly when synthesis succeeded. It is the base URL without trailing slashes, then a single slash and the `.mp3` file name. |
| Utils.TrailingSlashIgnored | utils.py:63 | A trailing slash on the base URL does not change the URL. |
| Webhook.Effect | main.py:156-204 | The handler either leaves the cases as they were or appends exactly one. An appended case has the next id and a normalised sender. The rate table changes exactly as the limiter's admission says. |
| Webhook.HandleMessage | main.py:156-204 | The outcome of one message is the state it writes together with the reply it sends. A request that ends in a server error stores no case. A stored case is answered with `format_reply` of its own diagnosis, in the message's language. |
| Webhook.ReplyLanguageByBody | main.py:164 | The reply language ignores the sender's number. It is Tamil exactly when the lower-cased body contains `ta` or the Tamil word for Tamil. |
| Webhook.ChennaiSenderGreetedInHindi | main.py:164-168 | A text-only message with an empty body from `whatsapp:+914412345678` gets the Hindi greeting, as the program answers it. |
| Webhook.TextOnlyMessage | main.py:166-169 | A message without media gets the greeting in its language, and nothing is written. |
| Webhook.RateLimitedMessage | main.py:171-174 | A sender inside the cooldown window gets the wait message, and nothing is written. |
| Webhook.FailedDownload | main.py:176-180 | A failed download gets the failure message. The admission stays recorded, and no case is written. |
| Webhook.CaseStoredExactly | main.py:176-197 | A case is stored exactly when an admitted image downloaded and the model's reply decoded to an object, failure sentinels included. |
| Webhook.StoredCaseContents | main.py:192-196 | The stored case has the next id, the normalised sender, the second clock reading, an image that decodes to the downloaded bytes, and the diagnosis. It is escalated exactly when the diagnosis escalates. |
| Webhook.StoredCaseReply | main.py:185-202 | The reply to a stored case is `format_reply` of its diagnosis, with audio exactly when synthesis succeeded. |
| Webhook.AdmittedOnRawSender | main.py:158-172 | Gating on the webhook's normalised sender and gating on the raw sender admit alike and write the same table. |
| Webhook.RatesStayNormalised | main.py:95-99 | Every rate-table key stays a `whatsapp:`-prefixed sender. |
| Webhook.NewCaseFits | main.py:192-196 | The appended case keeps ids strictly increasing and every stored sender normalised. |
| Webhook.HandleMessagePreservesValid | main.py:156-204 | Handling any message keeps the database consistent. |
| Webhook.RunPreservesValid | main.py:156-204 | Over any sequence of messages, the database stays consistent, and earlier cases are never changed or removed. |
| Dashboard.EscalateCase | dashboard.py:125 | The chosen case is flagged and every other case keeps its flag. No other field changes. |
| Dashboard.EscalateMonotone | dashboard.py:121-126 | Escalation never clears a flag, and escalating twice is the same as escalating once. |

## Left out

- The web and messaging plumbing is not modelled: FastAPI routing, the TwiML document built with `MessagingResponse`, the Twilio credentials and the served `public_audio` directory. The reply is the text and the optional audio URL that go into it.
- The model request itself is not modelled: the model name, the user turn with the image data URL, the token and temperature settings. The completion it returns is an input.
- External effects are inputs: `requests.get`, gTTS synthesis and saving the MP3, `uuid.uuid4()`, `os.getenv`, and both `datetime.now` readings.
- `json.loads` is a decoder parameter. `json.dumps` of the stored diagnosis is modelled as storing the diagnosis value itself.
- `datetime.fromisoformat` is modelled by the `Stamp` datatype: an instant with an optional offset, or unparseable text. Parsing ISO text is not modelled.
- The SQLite connection, commits and the storage-layer I/O errors are not modelled. The tables are a map and a sequence, and row ids are assigned from a counter.
- Concurrency is not modelled: messages are handled one after another, and the non-atomic check-then-write of the limiter is not analysed.
- The unreachable statements after the webhook's final `return` (main.py:207-218) are not modelled.
- The dashboard's listing, filters, PDF report and display are not modelled. Only the escalate update is.
- Dashboard.EscalateCase: the update is modelled for any case. The dashboard only offers the button when the case's own diagnosis does not escalate (dashboard.py:121), and that screen logic is not modelled.
- Strings.Lower: lower-cases ASCII letters only. Python's `lower` also maps other scripts, which none of the keywords need.
- Utils.Format: accepts only plain `{name}` fields. Conversion flags, format specs, positional and attribute fields all give the error outcome.
- Records.Diagnosis: numeric fields are integers and text fields are strings. A JSON float or a value of another type in those keys is not modelled. `escalate` keeps only its truthiness.
- Language.DetectLanguage: the corrected area-code reading is proved only as the intended behaviour of the finding below. The webhook, like `main.py`, uses `Language.DetectLanguageAsWritten`.

## Findings

| source | as written | input that shows it | evidently intended | confidence | as-written member | corrected member |
|---|---|---|---|---|---|---|
| main.py:67-68 | The area code is the number field cut to four characters with the first two dropped. Counting the `+` of `+91`, this yields `1` and the first subscriber digit, which never matches a Tamil Nadu code. | `From = whatsapp:+914412345678` with an empty body gets Hindi. | The two digits after `+91` (`44` here), so Tamil Nadu numbers get Tamil. | medium; not executed | Language.ChennaiNumberAsWritten | Language.TamilNaduNumbers |
