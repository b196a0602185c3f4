/**
 The `/whatsapp` webhook of `main.py` as one step over the stored state,
 with every clock reading and external result as an input.
 */
module Webhook {

  import opened Wrappers
  import opened Strings
  import opened Records
  import Language
  import RateLimit
  import Media
  import Base64
  import Reply
  import Utils

  /** A row of the `cases` table. */
  datatype Case = Case(
    id: nat,
    phone: string,
    timestamp: int,
    image: string,
    diagnosis: Diagnosis,
    escalated: bool)

  /** The database: the `rate_limit` table, the `cases` table in insertion order, and the next row id. */
  datatype State = State(rates: RateLimit.RateTable, cases: seq<Case>, nextId: nat)

  /** The form fields of one inbound message (`MediaUrl0`, `Body`, `From`). */
  datatype Inbound = Inbound(mediaUrl: Option<string>, body: string, from: string)

  /**
   Everything the handler learns from outside: the clock when the rate
   limiter runs and when the case is stored, the media download, the model
   call, the JSON decoder, whether speech synthesis succeeded, the fresh
   audio file name and the `NGROK_BASE_URL` setting.
   */
  datatype World = World(
    admitClock: int,
    recordClock: int,
    download: Media.HttpOutcome,
    completion: Media.Completion,
    decode: string -> Option<JsonValue>,
    synthesized: bool,
    audioId: string,
    baseUrl: string)

  /** The reply sent back: a text with an optional audio URL, or the framework's error response. */
  datatype Response = Sent(text: string, media: Option<string>) | ServerError

  datatype Outcome = Outcome(state: State, response: Response)

  function Greeting(lang: string): string {
    if lang == Language.Tamil then "வணக்கம்! பயிர் புகைப்படம் அனுப்பவும்." else "नमस्ते! फसल का फोटो भेजें।"
  }

  function WaitMessage(lang: string): string {
    if lang == Language.Tamil then "தயவு செய்து 2 நிமிடம் காத்திருக்கவும்." else "कृपया 2 मिनट प्रतीक्षा करें।"
  }

  function DownloadFailed(lang: string): string {
    if lang == Language.Tamil then "படத்தை பதிவிறக்க முடியவில்லை." else "फोटो डाउनलोड नहीं हो सका।"
  }

  /** `if not MediaUrl0`: no media reference, or an empty one. */
  predicate HasMedia(msg: Inbound) {
    msg.mediaUrl.Some? && msg.mediaUrl.value != ""
  }

  /** Row ids strictly increase and stay below the next id. */
  ghost predicate IdsOrdered(cases: seq<Case>, nextId: nat) {
    && nextId >= 1
    && (forall i, j :: 0 <= i < j < |cases| ==> cases[i].id < cases[j].id)
    && (forall i :: 0 <= i < |cases| ==> 1 <= cases[i].id < nextId)
  }

  /** Every stored sender carries the `whatsapp:` prefix. */
  ghost predicate SendersPrefixed(cases: seq<Case>) {
    forall i :: 0 <= i < |cases| ==> StartsWith(cases[i].phone, RateLimit.WhatsappPrefix)
  }

  /** Every stored sender and every rate-table key carries the `whatsapp:` prefix. */
  ghost predicate PhonesNormalised(s: State) {
    && SendersPrefixed(s.cases)
    && (forall k :: k in s.rates ==> StartsWith(k, RateLimit.WhatsappPrefix))
  }

  /** A consistent database. */
  ghost predicate Valid(s: State) {
    IdsOrdered(s.cases, s.nextId) && PhonesNormalised(s)
  }

  /** The row `INSERT INTO cases` writes, with the id SQLite assigns. */
  function NewCase(s: State, phone: string, w: World, image: string, d: Diagnosis): Case {
    Case(s.nextId, phone, w.recordClock, image, d, Escalates(d))
  }

  /** The reply language: `detect_language` on the normalised sender and the body, as `main.py` runs it. */
  function LanguageOf(msg: Inbound): string {
    Language.DetectLanguageAsWritten(RateLimit.NormalizePhone(msg.from), msg.body)
  }

  /**
   Whether the rate limiter admits the sender. The limiter normalises the
   already normalised phone again, which changes nothing.
   */
  predicate Admitted(s: State, msg: Inbound, w: World) {
    RateLimit.CanSendImage(s.rates, RateLimit.NormalizePhone(msg.from), w.admitClock).admitted
  }

  /** `if not b64_image`: the download gave no usable text. */
  predicate Downloaded(w: World) {
    var image := Media.DownloadImage(w.download);
    image.Some? && image.value != ""
  }

  /** The rate table after the limiter admitted the sender. */
  function AdmittedRates(s: State, msg: Inbound, w: World): RateLimit.RateTable {
    RateLimit.CanSendImage(s.rates, RateLimit.NormalizePhone(msg.from), w.admitClock).table
  }

  /**
   What the handler writes. Nothing for a text-only or rate-limited
   message; past the limiter the admission is recorded, and one case is
   appended when the image downloaded and the model's reply is an object.
   */
  function Effect(s: State, msg: Inbound, w: World): (r: State)
    ensures r.cases == s.cases || (|r.cases| == |s.cases| + 1 && r.cases[..|s.cases|] == s.cases)
    ensures r.nextId == s.nextId + |r.cases| - |s.cases|
    ensures |r.cases| > |s.cases| ==>
      r.cases[|s.cases|].id == s.nextId && StartsWith(r.cases[|s.cases|].phone, RateLimit.WhatsappPrefix)
    ensures HasMedia(msg) && Admitted(s, msg, w) ==> r.rates == AdmittedRates(s, msg, w)
    ensures !(HasMedia(msg) && Admitted(s, msg, w)) ==> r.rates == s.rates
  {
    if !HasMedia(msg) || !Admitted(s, msg, w) then s
    else
      var s1 := s.(rates := AdmittedRates(s, msg, w));
      if Downloaded(w) && Media.AnalyzeImage(w.completion, w.decode).Object? then
        var c := NewCase(s, RateLimit.NormalizePhone(msg.from), w, Media.DownloadImage(w.download).value,
                         Media.AnalyzeImage(w.completion, w.decode).fields);
        s1.(cases := s.cases + [c], nextId := s.nextId + 1)
      else s1
  }

  /** What the handler replies, in the detected language. */
  function Answer(s: State, msg: Inbound, w: World): Response {
    var lang := LanguageOf(msg);
    if !HasMedia(msg) then Sent(Greeting(lang), None)
    else if !Admitted(s, msg, w) then Sent(WaitMessage(lang), None)
    else if !Downloaded(w) then Sent(DownloadFailed(lang), None)
    else
      match Media.AnalyzeImage(w.completion, w.decode)
      case NonObject(_) =>
        // `format_reply` or `result.get` fails on a value that is not an object
        ServerError
      case Object(d) =>
        var audio := Utils.TextToSpeech(w.synthesized, w.baseUrl, w.audioId);
        // `if audio_url`: only a non-empty URL is attached
        Sent(Reply.FormatReply(d, lang), if audio.Some? && audio.value != "" then audio else None)
  }

  /**
   `whatsapp_webhook`: one inbound message against the database. A request
   that fails stores no case, and a stored case is answered with the reply
   for its own diagnosis.
   */
  function HandleMessage(s: State, msg: Inbound, w: World): (r: Outcome)
    ensures r.state == Effect(s, msg, w) && r.response == Answer(s, msg, w)
    ensures r.response.ServerError? ==> r.state.cases == s.cases
    ensures |r.state.cases| > |s.cases| ==>
      r.response.Sent? && r.response.text == Reply.FormatReply(r.state.cases[|s.cases|].diagnosis, LanguageOf(msg))
  {
    var r := Outcome(Effect(s, msg, w), Answer(s, msg, w));
    if |r.state.cases| > |s.cases| then
      StoredCaseReply(s, msg, w);
      r
    else r
  }

  /** The limiter sees the same key as the webhook, so gating on the raw sender is the same. */
  lemma AdmittedOnRawSender(s: State, msg: Inbound, w: World)
    ensures Admitted(s, msg, w) == RateLimit.CanSendImage(s.rates, msg.from, w.admitClock).admitted
    ensures AdmittedRates(s, msg, w) == RateLimit.CanSendImage(s.rates, msg.from, w.admitClock).table
  {
    RateLimit.NormalizeIdempotent(msg.from);
  }

  /**
   The reply language ignores the sender's number: it is Tamil exactly when
   the lower-cased body contains `ta` or the Tamil word for Tamil.
   */
  lemma ReplyLanguageByBody(msg: Inbound)
    ensures LanguageOf(msg) == Language.Tamil
            <==> Contains(Lower(msg.body), Language.TamilKeywords[1]) || Contains(Lower(msg.body), Language.Tamil)
  {
    Language.DetectLanguageAsWrittenByBody(RateLimit.NormalizePhone(msg.from), msg.body);
  }

  /** A Chennai sender with no media and an empty body is greeted in Hindi. */
  lemma ChennaiSenderGreetedInHindi(s: State, w: World)
    ensures HandleMessage(s, Inbound(None, "", "whatsapp:+914412345678"), w).response
            == Sent(Greeting(Language.Hindi), None)
  {
    var msg := Inbound(None, "", "whatsapp:+914412345678");
    Language.EmptyBodyNoKeywords();
    ReplyLanguageByBody(msg);
    assert !Contains(Lower(""), Language.TamilKeywords[1]) && !Contains(Lower(""), Language.Tamil) by {
      assert Lower("") == "";
    }
  }

  /** A text-only message gets the greeting and touches nothing. */
  lemma TextOnlyMessage(s: State, msg: Inbound, w: World)
    requires !HasMedia(msg)
    ensures HandleMessage(s, msg, w) == Outcome(s, Sent(Greeting(LanguageOf(msg)), None))
  {
  }

  /** A sender inside the cooldown window gets the wait message and nothing is written. */
  lemma RateLimitedMessage(s: State, msg: Inbound, w: World)
    requires HasMedia(msg) && !Admitted(s, msg, w)
    ensures HandleMessage(s, msg, w) == Outcome(s, Sent(WaitMessage(LanguageOf(msg)), None))
  {
  }

  /** A failed download is reported; the admission stays recorded and no case is written. */
  lemma FailedDownload(s: State, msg: Inbound, w: World)
    requires HasMedia(msg) && Admitted(s, msg, w) && Media.DownloadImage(w.download).None?
    ensures Answer(s, msg, w) == Sent(DownloadFailed(LanguageOf(msg)), None)
    ensures Effect(s, msg, w) == s.(rates := AdmittedRates(s, msg, w))
    ensures RateLimit.NormalizePhone(msg.from) in Effect(s, msg, w).rates
  {
    assert !Downloaded(w);
    RateLimit.NormalizeIdempotent(msg.from);
  }

  /**
   A case is stored exactly when an admitted image downloaded and the model's
   reply decoded to an object (failures included, as escalating sentinels).
   */
  lemma CaseStoredExactly(s: State, msg: Inbound, w: World)
    ensures |Effect(s, msg, w).cases| == |s.cases| + 1 <==>
      && HasMedia(msg)
      && Admitted(s, msg, w)
      && Media.DownloadImage(w.download).Some?
      && Media.AnalyzeImage(w.completion, w.decode).Object?
  {
  }

  /**
   The stored case gets the next id, the normalised sender, the second clock
   reading, the downloaded image and the diagnosis, and is escalated exactly
   when the diagnosis escalates.
   */
  lemma StoredCaseContents(s: State, msg: Inbound, w: World)
    requires |Effect(s, msg, w).cases| == |s.cases| + 1
    ensures var c := Effect(s, msg, w).cases[|s.cases|];
      && c.id == s.nextId
      && c.phone == RateLimit.NormalizePhone(msg.from)
      && c.timestamp == w.recordClock
      && w.download.Response?
      && Base64.Decode(c.image) == Some(w.download.content)
      && Media.AnalyzeImage(w.completion, w.decode) == Object(c.diagnosis)
      && (c.escalated <==> Escalates(c.diagnosis))
  {
  }

  /** The reply to a stored case is `format_reply` of its diagnosis, with audio exactly when synthesis worked. */
  lemma StoredCaseReply(s: State, msg: Inbound, w: World)
    requires |Effect(s, msg, w).cases| == |s.cases| + 1
    ensures var r := Answer(s, msg, w);
      && r.Sent?
      && r.text == Reply.FormatReply(Effect(s, msg, w).cases[|s.cases|].diagnosis, LanguageOf(msg))
      && (r.media.Some? <==> w.synthesized)
  {
    StoredCaseContents(s, msg, w);
    CaseStoredExactly(s, msg, w);
  }

  /** Every key the limiter writes is a normalised sender. */
  lemma RatesStayNormalised(s: State, msg: Inbound, w: World)
    requires forall k :: k in s.rates ==> StartsWith(k, RateLimit.WhatsappPrefix)
    ensures forall k :: k in Effect(s, msg, w).rates ==> StartsWith(k, RateLimit.WhatsappPrefix)
  {
    if HasMedia(msg) && Admitted(s, msg, w) {
      assert AdmittedRates(s, msg, w).Keys == s.rates.Keys + {RateLimit.NormalizePhone(RateLimit.NormalizePhone(msg.from))};
    }
  }

  /** Appending a case with the next id to an ordered table keeps it ordered. */
  lemma AppendKeepsOrdered(cases: seq<Case>, nextId: nat, c: Case)
    requires IdsOrdered(cases, nextId) && c.id == nextId
    ensures IdsOrdered(cases + [c], nextId + 1)
  {
  }

  /** Appending a case with a normalised sender keeps every sender normalised. */
  lemma AppendKeepsPrefixed(cases: seq<Case>, c: Case)
    requires SendersPrefixed(cases) && StartsWith(c.phone, RateLimit.WhatsappPrefix)
    ensures SendersPrefixed(cases + [c])
  {
  }

  /**
   A table that is kept as it was, or grows by one case with the next id
   and a normalised sender, stays ordered and normalised.
   */
  lemma GrowthKeepsCasesValid(before: seq<Case>, nextId: nat, after: seq<Case>, nextId': nat)
    requires IdsOrdered(before, nextId) && SendersPrefixed(before)
    requires after == before || (|after| == |before| + 1 && after[..|before|] == before)
    requires nextId' == nextId + |after| - |before|
    requires |after| > |before| ==>
      after[|before|].id == nextId && StartsWith(after[|before|].phone, RateLimit.WhatsappPrefix)
    ensures IdsOrdered(after, nextId') && SendersPrefixed(after)
  {
    if |after| > |before| {
      var c := after[|before|];
      assert after == before + [c];
      AppendKeepsOrdered(before, nextId, c);
      AppendKeepsPrefixed(before, c);
    }
  }

  /** The case a message appends, if any, keeps ids ordered and senders normalised. */
  lemma NewCaseFits(s: State, msg: Inbound, w: World)
    requires IdsOrdered(s.cases, s.nextId) && SendersPrefixed(s.cases)
    ensures IdsOrdered(Effect(s, msg, w).cases, Effect(s, msg, w).nextId)
    ensures SendersPrefixed(Effect(s, msg, w).cases)
  {
    var r := Effect(s, msg, w);
    GrowthKeepsCasesValid(s.cases, s.nextId, r.cases, r.nextId);
  }

  /** Handling a message keeps the database consistent. */
  lemma HandleMessagePreservesValid(s: State, msg: Inbound, w: World)
    requires Valid(s)
    ensures Valid(HandleMessage(s, msg, w).state)
  {
    RatesStayNormalised(s, msg, w);
    NewCaseFits(s, msg, w);
  }

  /** A sequence of inbound messages, each with what the outside world did for it. */
  datatype Event = Event(msg: Inbound, world: World)

  function Run(s: State, events: seq<Event>): State
    decreases |events|
  {
    if |events| == 0 then s
    else Run(Effect(s, events[0].msg, events[0].world), events[1..])
  }

  /** The later table keeps the earlier one as its prefix: stored cases are never changed or removed. */
  ghost predicate Extends(before: seq<Case>, after: seq<Case>) {
    |before| <= |after| && after[..|before|] == before
  }

  lemma {:induction false} RunPreservesValid(s: State, events: seq<Event>)
    requires Valid(s)
    ensures Valid(Run(s, events))
    ensures Extends(s.cases, Run(s, events).cases)
    decreases |events|
  {
    if |events| > 0 {
      var s1 := Effect(s, events[0].msg, events[0].world);
      HandleMessagePreservesValid(s, events[0].msg, events[0].world);
      RunPreservesValid(s1, events[1..]);
      assert Extends(s.cases, s1.cases);
      var sn := Run(s, events);
      assert sn.cases[..|s1.cases|] == s1.cases;
      assert sn.cases[..|s.cases|] == sn.cases[..|s1.cases|][..|s.cases|];
    }
  }
}
