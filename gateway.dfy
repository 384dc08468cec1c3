/** The server side of a translation request: translate() (init.php:216-446)
    as one function of everything it reads. The database row, the stored
    configuration, the port parse_url finds in the service URL and the
    provider's two replies are inputs; the outcome printed as JSON and the
    provider calls made are the result. The HTML sanitizer is not part of
    this model: the outcome records the arguments it is called with. */
module Gateway {
  import opened Common
  import opened ControlMarkers
  import opened Placeholders
  import opened Settings

  /** The article row the query returns (init.php:233-241). */
  datatype Row = Row(content: seq<Token>, lang: string, title: string, hideImages: bool, siteUrl: string)

  /** What translate() reads from the request, the session and the store. */
  datatype Request = Request(
    id: int,               // (int) of the request's "id", 0 when absent
    uid: Option<int>,      // the session's uid
    row: Option<Row>,      // None when the query finds nothing
    cfg: Config,
    port: Option<nat>)     // the port parse_url reads from the trimmed URL

  /** A decoded JSON value, objects as their members in order. */
  datatype Json =
    | JNull
    | JBool(b: bool)
    | JNumber(n: int)
    | JString(s: string)
    | JArray(items: seq<Json>)
    | JObject(members: seq<(string, Json)>)

  /** The provider's answer to the body call. */
  datatype BodyReply =
    | FetchFailed(lastError: string, code: int, contentType: string, errorContent: string)
    | Undecodable(raw: string)          // not a JSON object with "translatedText"
    | Decoded(translatedText: seq<Token>, detectedLanguage: Json)

  /** The provider's answer to the title call. */
  datatype TitleReply =
    | TitleFetchFailed
    | TitleUndecodable
    | TitleDecoded(translatedText: Json)

  datatype Payload = Html(markup: seq<Token>) | PlainText(text: string)

  /** One POST to the provider (init.php:304-320, 398-414). */
  datatype ProviderCall = ProviderCall(
    url: string, q: Payload, source: string, target: string, format: string,
    apiKey: Option<string>, timeout: nat)

  /** The arguments Sanitizer::sanitize is called with (init.php:428-435). */
  datatype SanitizerCall = SanitizerCall(html: seq<Token>, hideImages: bool, ownerUid: int, siteUrl: string, articleId: int)

  datatype ErrorMeta =
    | NoMeta
    | TransportMeta(code: int, contentType: string, response: string)
    | ResponseMeta(response: string)

  /** The JSON object translate() prints. */
  datatype Outcome =
    | Error(message: string, meta: ErrorMeta)
    | Skipped(message: string, target: string, detected: Option<string>)
    | Ok(articleId: int, target: string, mode: string, translated: SanitizerCall,
         detected: Option<string>, titleTranslated: Option<string>)

  datatype Response = Response(outcome: Outcome, calls: seq<ProviderCall>)

  // ---------------------------------------------------------------------
  // Messages
  // ---------------------------------------------------------------------

  const InvalidId := "Invalid article id."
  const NotAuthenticated := "Not authenticated."
  const NotFound := "Article not found."
  const NotConfigured := "Translation service is not configured."
  const AlreadyTarget := "Article is already in the target language."
  const EmptyContent := "Empty article content."
  const RequestFailed := "Translation request failed."
  const Unexpected := "Unexpected response from translation service."

  function PortMessage(p: nat): string {
    "Translation service must listen on port 80 or 443 " + "(current configuration uses " + NatToString(p) + ")."
  }

  function AppearsMessage(detected: string): string {
    "Article already appears to be " + Upper(detected) + "."
  }

  // ---------------------------------------------------------------------
  // Checks before the provider is called
  // ---------------------------------------------------------------------

  predicate PortAllowed(port: Option<nat>) {
    port.None? || port.value == 80 || port.value == 443
  }

  /** The source language sent to the provider: the article's, or "auto"
      when it has none (init.php:268). */
  function SourceLanguage(row: Row): (r: string)
    ensures !PhpFalsy(r)
    ensures PhpFalsy(row.lang) <==> r == "auto" && row.lang != "auto"
    ensures !PhpFalsy(row.lang) ==> r == row.lang
  {
    if PhpFalsy(row.lang) then "auto" else row.lang
  }

  /** The recorded language already is the target (init.php:270). */
  predicate AlreadyInTarget(row: Row, target: string) {
    SourceLanguage(row) != "auto" && Lower(SourceLanguage(row)) == Lower(target)
  }

  /** A non-zero id, a logged-in user and a row found (init.php:219-246). */
  predicate Authorized(req: Request) {
    req.id != 0 && req.uid.Some? && req.uid.value != 0 && req.row.Some?
  }

  /** The outcome of the checks of init.php:219-284, in their order, or
      None when the request may go to the provider. */
  function Precheck(req: Request): (r: Option<Outcome>)
    ensures req.id == 0 ==> r == Some(Error(InvalidId, NoMeta))
    ensures req.id != 0 && (req.uid.None? || req.uid.value == 0) ==> r == Some(Error(NotAuthenticated, NoMeta))
    ensures req.id != 0 && req.uid.Some? && req.uid.value != 0 && req.row.None? ==> r == Some(Error(NotFound, NoMeta))
    ensures r.None? <==>
              && req.id != 0 && req.uid.Some? && req.uid.value != 0 && req.row.Some?
              && !PhpFalsy(req.cfg.url) && PortAllowed(req.port)
              && !AlreadyInTarget(req.row.value, req.cfg.target)
              && !PhpFalsy(Render(req.row.value.content))
    ensures Authorized(req) && PhpFalsy(req.cfg.url) ==> r == Some(Error(NotConfigured, NoMeta))
    ensures Authorized(req) && !PhpFalsy(req.cfg.url) && !PortAllowed(req.port) ==>
              r == Some(Error(PortMessage(req.port.value), NoMeta))
    ensures Authorized(req) && !PhpFalsy(req.cfg.url) && PortAllowed(req.port)
            && !AlreadyInTarget(req.row.value, req.cfg.target) && PhpFalsy(Render(req.row.value.content)) ==>
              r == Some(Error(EmptyContent, NoMeta))
    ensures r.Some? ==> r.value.Error? || r.value == Skipped(AlreadyTarget, req.cfg.target, None)
  {
    if req.id == 0 then Some(Error(InvalidId, NoMeta))
    else if req.uid.None? || req.uid.value == 0 then Some(Error(NotAuthenticated, NoMeta))
    else if req.row.None? then Some(Error(NotFound, NoMeta))
    else if PhpFalsy(req.cfg.url) then Some(Error(NotConfigured, NoMeta))
    else if !PortAllowed(req.port) then Some(Error(PortMessage(req.port.value), NoMeta))
    else if AlreadyInTarget(req.row.value, req.cfg.target) then Some(Skipped(AlreadyTarget, req.cfg.target, None))
    else if PhpFalsy(Render(req.row.value.content)) then Some(Error(EmptyContent, NoMeta))
    else None
  }

  // ---------------------------------------------------------------------
  // The provider calls
  // ---------------------------------------------------------------------

  /** The endpoint: the configured URL without trailing slashes, then
      "/translate" (init.php:259, 316). */
  function Endpoint(cfg: Config): (r: string)
    ensures |r| >= 10 && r[|r| - 10..] == "/translate"
    ensures r[..|r| - 10] == TrimRight(cfg.url, {'/'})
  {
    TrimRight(cfg.url, {'/'}) + "/translate"
  }

  /** api_key is sent only when it is not empty (init.php:311-313). */
  function KeyParam(cfg: Config): (r: Option<string>)
    ensures r.Some? <==> cfg.apiKey != ""
    ensures r.Some? ==> r.value == cfg.apiKey
  {
    if cfg.apiKey != "" then Some(cfg.apiKey) else None
  }

  function BodyCall(req: Request): (c: ProviderCall)
    requires req.row.Some?
    ensures c.q == Html(Protected(req.row.value.content))
    ensures c.format == "html" && c.timeout == 30 && c.target == req.cfg.target
    ensures c.source == SourceLanguage(req.row.value) && c.url == Endpoint(req.cfg)
    ensures c.apiKey == KeyParam(req.cfg)
  {
    ProviderCall(Endpoint(req.cfg), Html(Protected(req.row.value.content)), SourceLanguage(req.row.value),
                 req.cfg.target, "html", KeyParam(req.cfg), 30)
  }

  // ---------------------------------------------------------------------
  // After the body reply
  // ---------------------------------------------------------------------

  /** PHP's reset() on a decoded value: the first element of an array or
      object, false for an empty one; other values are kept. */
  function Reset(j: Json): (r: Json)
    ensures j.JArray? ==> r == (if j.items == [] then JBool(false) else j.items[0])
    ensures j.JObject? ==> r == (if j.members == [] then JBool(false) else j.members[0].1)
    ensures !j.JArray? && !j.JObject? ==> r == j
  {
    match j
    case JArray(items) => if items == [] then JBool(false) else items[0]
    case JObject(members) => if members == [] then JBool(false) else members[0].1
    case _ => j
  }

  /** The detected language: the first element when the provider sent an
      array, lower-cased when it is a string, otherwise none
      (init.php:342-352). */
  function NormalizeDetected(j: Json): (r: Option<string>)
    ensures r.Some? ==> IsLower(r.value)
    ensures r.Some? <==> Reset(j).JString?
    ensures r.Some? ==> r.value == Lower(Reset(j).s)
  {
    match Reset(j)
    case JString(s) => Some(Lower(s))
    case _ => None
  }

  /** The post-reply skip: only an automatic source is checked against the
      detected language (init.php:354-369). */
  predicate DetectedIsTarget(row: Row, target: string, detected: Option<string>) {
    SourceLanguage(row) == "auto" && detected.Some? && detected.value == Lower(target)
  }

  /** The body the sanitizer receives: toggles stripped first, then markers
      restored from the placeholder array (init.php:371-384). */
  function TranslatedBody(content: seq<Token>, reply: seq<Token>): (r: seq<Token>)
    ensures |r| == |reply|
    ensures forall j :: 0 <= j < |reply| && reply[j].Text? ==> r[j] == Text(Strip(reply[j].s))
    ensures forall j :: 0 <= j < |reply| && reply[j].Marker? && reply[j].index < |Tags(content)| ==>
              r[j] == Img(Tags(content)[reply[j].index])
    ensures forall j :: 0 <= j < |reply| && reply[j].Marker? && reply[j].index >= |Tags(content)| ==>
              r[j] == reply[j]
  {
    PlaceholderMapIndexes(content);
    Restore(StripTokens(reply), PlaceholderMap(content))
  }

  /** The source of the title call: the detected language stands in for
      "auto", and a falsy result becomes "auto" again (init.php:392-400). */
  function TitleSource(row: Row, detected: Option<string>): (r: string)
    ensures !PhpFalsy(r)
    ensures SourceLanguage(row) != "auto" ==> r == SourceLanguage(row)
    ensures SourceLanguage(row) == "auto" && detected.Some? && !PhpFalsy(detected.value) ==> r == detected.value
    ensures SourceLanguage(row) == "auto" && (detected.None? || PhpFalsy(detected.value)) ==> r == "auto"
  {
    var s := if SourceLanguage(row) == "auto" && detected.Some? then detected.value else SourceLanguage(row);
    if PhpFalsy(s) then "auto" else s
  }

  function TitleCall(req: Request, detected: Option<string>): (c: ProviderCall)
    requires req.row.Some?
    ensures c.q == PlainText(Trim(req.row.value.title))
    ensures c.format == "text" && c.timeout == 15 && c.target == req.cfg.target
    ensures c.source == TitleSource(req.row.value, detected) && c.url == Endpoint(req.cfg)
    ensures c.apiKey == KeyParam(req.cfg)
  {
    ProviderCall(Endpoint(req.cfg), PlainText(Trim(req.row.value.title)), TitleSource(req.row.value, detected),
                 req.cfg.target, "text", KeyParam(req.cfg), 15)
  }

  /** Whether the title is sent at all (init.php:388-391). */
  predicate TitleWanted(req: Request)
    requires req.row.Some?
    ensures TitleWanted(req) ==> req.cfg.translateTitles && |req.row.value.title| > 0
  {
    req.cfg.translateTitles && Trim(req.row.value.title) != ""
  }

  /** The translated title: only a string reply counts, stripped of toggles
      and trimmed; every failure is swallowed as "no title"
      (init.php:416-424). */
  function TitleResult(reply: TitleReply): (r: Option<string>)
    ensures r.Some? <==> reply.TitleDecoded? && reply.translatedText.JString?
    ensures r.Some? ==> r.value == Trim(Strip(reply.translatedText.s))
  {
    if reply.TitleDecoded? && reply.translatedText.JString? then Some(Trim(Strip(reply.translatedText.s)))
    else None
  }

  // ---------------------------------------------------------------------
  // translate()
  // ---------------------------------------------------------------------

  /** The success path (init.php:386-444): the body call, then the title
      call when one is wanted, and the sanitized body with the title the
      second reply yields. */
  function Accepted(req: Request, text: seq<Token>, detected: Option<string>, title: TitleReply): (r: Response)
    requires req.row.Some? && req.uid.Some?
    ensures 1 <= |r.calls| <= 2 && r.calls[0] == BodyCall(req)
    ensures |r.calls| == 2 <==> TitleWanted(req)
    ensures |r.calls| == 2 ==> r.calls[1] == TitleCall(req, detected)
    ensures r.outcome.Ok? && r.outcome.articleId == req.id && r.outcome.detected == detected
    ensures r.outcome.target == req.cfg.target && r.outcome.mode == req.cfg.mode
    ensures r.outcome.translated ==
              SanitizerCall(TranslatedBody(req.row.value.content, text), req.row.value.hideImages, req.uid.value,
                            req.row.value.siteUrl, req.id)
    ensures r.outcome.titleTranslated == (if TitleWanted(req) then TitleResult(title) else None)
  {
    var row := req.row.value;
    var titleCalls := if TitleWanted(req) then [TitleCall(req, detected)] else [];
    var titleTranslated := if TitleWanted(req) then TitleResult(title) else None;
    var sanitized := SanitizerCall(TranslatedBody(row.content, text), row.hideImages, req.uid.value, row.siteUrl, req.id);
    Response(Ok(req.id, req.cfg.target, req.cfg.mode, sanitized, detected, titleTranslated), [BodyCall(req)] + titleCalls)
  }

  /** The whole decision pipeline. The provider replies are consulted only
      for calls that are made. */
  function Translate(req: Request, body: BodyReply, title: TitleReply): (r: Response)
    // every check that fails stops before any provider call
    ensures Precheck(req).Some? ==> r == Response(Precheck(req).value, [])
    // otherwise the body goes out first, and the title, if at all, second
    ensures Precheck(req).None? ==> 1 <= |r.calls| <= 2 && r.calls[0] == BodyCall(req)
    ensures |r.calls| == 2 ==>
              && body.Decoded? && r.outcome.Ok? && TitleWanted(req)
              && r.calls[1] == TitleCall(req, NormalizeDetected(body.detectedLanguage))
    // transport failure and an undecodable reply
    ensures Precheck(req).None? && body.FetchFailed? ==>
              r.outcome == Error(if PhpFalsy(body.lastError) then RequestFailed else body.lastError,
                                 TransportMeta(body.code, body.contentType, body.errorContent))
    ensures Precheck(req).None? && body.Undecodable? ==> r.outcome == Error(Unexpected, ResponseMeta(body.raw))
    // the post-reply skip
    ensures r.outcome.Skipped? && r.calls != [] ==>
              && body.Decoded? && r.outcome.detected.Some?
              && DetectedIsTarget(req.row.value, req.cfg.target, r.outcome.detected)
              && r.outcome.message == AppearsMessage(r.outcome.detected.value)
    ensures Precheck(req).None? && body.Decoded?
            && DetectedIsTarget(req.row.value, req.cfg.target, NormalizeDetected(body.detectedLanguage)) ==>
              && r.outcome.Skipped? && r.calls == [BodyCall(req)]
              && r.outcome.detected == NormalizeDetected(body.detectedLanguage)
    // success
    ensures r.outcome.Ok? <==>
              Precheck(req).None? && body.Decoded?
              && !DetectedIsTarget(req.row.value, req.cfg.target, NormalizeDetected(body.detectedLanguage))
    ensures r.outcome.Ok? ==>
              && r.outcome.articleId == req.id && r.outcome.target == req.cfg.target
              && r.outcome.mode == req.cfg.mode
              && r.outcome.detected == NormalizeDetected(body.detectedLanguage)
              && r.outcome.translated ==
                   SanitizerCall(TranslatedBody(req.row.value.content, body.translatedText),
                                 req.row.value.hideImages, req.uid.value, req.row.value.siteUrl, req.id)
              && (r.outcome.titleTranslated.Some? ==> |r.calls| == 2 && title.TitleDecoded?)
    // the title: asked for exactly when wanted, and reported as its reply reads
    ensures r.outcome.Ok? ==> (|r.calls| == 2 <==> TitleWanted(req))
    ensures r.outcome.Ok? ==> r.outcome.titleTranslated == (if TitleWanted(req) then TitleResult(title) else None)
  {
    match Precheck(req)
    case Some(o) => Response(o, [])
    case None =>
      var row := req.row.value;
      var call := BodyCall(req);
      match body
      case FetchFailed(lastError, code, contentType, errorContent) =>
        Response(Error(if PhpFalsy(lastError) then RequestFailed else lastError,
                       TransportMeta(code, contentType, errorContent)), [call])
      case Undecodable(raw) =>
        Response(Error(Unexpected, ResponseMeta(raw)), [call])
      case Decoded(text, detectedJson) =>
        var detected := NormalizeDetected(detectedJson);
        if DetectedIsTarget(row, req.cfg.target, detected) then
          Response(Skipped(AppearsMessage(detected.value), req.cfg.target, detected), [call])
        else Accepted(req, text, detected, title)
  }

  // ---------------------------------------------------------------------
  // Properties relating several requests
  // ---------------------------------------------------------------------

  /** An article whose recorded language is the target, in any case, is
      skipped without a provider call, even when its content is empty: the
      language check comes before the content check (init.php:270-284). */
  lemma SkipBeforeEmptyContent(req: Request, body: BodyReply, title: TitleReply)
    requires req.id != 0 && req.uid.Some? && req.uid.value != 0 && req.row.Some?
    requires !PhpFalsy(req.cfg.url) && PortAllowed(req.port)
    requires !PhpFalsy(req.row.value.lang) && req.row.value.lang != "auto"
    requires Lower(req.row.value.lang) == Lower(req.cfg.target)
    ensures Translate(req, body, title) == Response(Skipped(AlreadyTarget, req.cfg.target, None), [])
  {
  }

  /** A URL with an explicit port other than 80 or 443 is refused before any
      call, with the port in the message; a URL without a port passes this
      check (init.php:261-266). */
  lemma PortRefused(req: Request, body: BodyReply, title: TitleReply)
    requires req.id != 0 && req.uid.Some? && req.uid.value != 0 && req.row.Some?
    requires !PhpFalsy(req.cfg.url)
    requires req.port.Some? && req.port.value != 80 && req.port.value != 443
    ensures Translate(req, body, title) == Response(Error(PortMessage(req.port.value), NoMeta), [])
  {
  }

  /** The post-reply skip is asymmetric: with an explicit source language,
      a provider that detects the target language does not cause a skip
      (init.php:354). */
  lemma ExplicitSourceIsNotSkipped(req: Request, text: seq<Token>, d: string, title: TitleReply)
    requires Precheck(req).None?
    requires SourceLanguage(req.row.value) != "auto"
    requires Lower(d) == Lower(req.cfg.target)
    ensures Translate(req, Decoded(text, JString(d)), title).outcome.Ok?
  {
  }

  /** With an automatic source, the provider detecting the target language
      turns the reply into a skip whose message names it in capitals. */
  lemma AutoSourceDetectedTargetIsSkipped(req: Request, text: seq<Token>, d: string, title: TitleReply)
    requires Precheck(req).None?
    requires SourceLanguage(req.row.value) == "auto"
    requires Lower(d) == Lower(req.cfg.target)
    ensures Translate(req, Decoded(text, JString(d)), title) ==
              Response(Skipped(AppearsMessage(Lower(d)), req.cfg.target, Some(Lower(d))), [BodyCall(req)])
  {
  }

  /** A failed or malformed title reply never fails the request: the outcome
      is the same as with no title translation, except for the title. */
  lemma TitleFailureSwallowed(req: Request, body: BodyReply, t1: TitleReply, t2: TitleReply)
    requires !(t1.TitleDecoded? && t1.translatedText.JString?)
    ensures var r1 := Translate(req, body, t1); var r2 := Translate(req, body, t2);
            && r1.calls == r2.calls
            && (r1.outcome.Ok? <==> r2.outcome.Ok?)
            && (r1.outcome.Ok? ==> r1.outcome.titleTranslated.None? && r1.outcome == r2.outcome.(titleTranslated := None))
            && (!r1.outcome.Ok? ==> r1.outcome == r2.outcome)
  {
  }

  /** The title is sent in the detected language when the article has none
      recorded, and never as an empty source. */
  lemma TitleUsesDetectedSource(req: Request, text: seq<Token>, d: string, title: TitleReply)
    requires Precheck(req).None? && TitleWanted(req)
    requires SourceLanguage(req.row.value) == "auto"
    requires Lower(d) != Lower(req.cfg.target) && !PhpFalsy(Lower(d))
    ensures var r := Translate(req, Decoded(text, JArray([JString(d)])), title);
            |r.calls| == 2 && r.calls[1].source == Lower(d)
  {
  }

  /** A provider that answers with a JSON object is read through reset():
      only the first member counts, so {"language": "FR", ...} yields "fr",
      while {"confidence": 90, "language": "fr"} yields no detected
      language. */
  lemma ObjectDetectionFirstMember()
    ensures NormalizeDetected(JObject([("language", JString("FR")), ("confidence", JNumber(90))])) == Some("fr")
    ensures NormalizeDetected(JObject([("confidence", JNumber(90)), ("language", JString("fr"))])) == None
  {
    var fr := "FR";
    assert fr[0] == 'F' && fr[1] == 'R';
    assert Lower(fr)[0] == 'f' && Lower(fr)[1] == 'r';
    assert Lower(fr) == "fr";
  }

  /** End to end with a provider that echoes the markup it receives: the
      sanitizer gets the article's own markup back, images included, when
      the article holds no marker span and no toggle of its own. */
  lemma EchoProviderRoundTrip(req: Request, title: TitleReply)
    requires Precheck(req).None?
    requires NoMarkers(req.row.value.content)
    requires forall j :: 0 <= j < |req.row.value.content| && req.row.value.content[j].Text? ==>
               !HasControlMarker(req.row.value.content[j].s)
    ensures var r := Translate(req, Decoded(Protected(req.row.value.content), JNull), title);
            r.outcome.Ok? && r.outcome.translated.html == req.row.value.content
  {
    EchoRoundTrip(req.row.value.content);
  }
}
