# Auto Translate — a verified model

A model, in Dafny, of the core of the Tiny Tiny RSS plugin "Auto Translate".
The plugin sends an article's body, and optionally its title, to a
LibreTranslate-compatible service and shows the translation under the
original or in its place. The core sits on both sides of the network call:

- **Server (`init.php`).**
  - `defaults()` and the `save()` normaliser of the stored configuration
    (`settings.dfy`).
  - The placeholder codec, which shields `<img>` tags from the provider
    (`placeholders.dfy`).
  - The removal of the provider's `SC_ON`/`SC_OFF` formatting toggles
    (`control_markers.dfy`).
  - `translate()` as one pure function from what it reads to the JSON
    outcome it prints and the provider calls it makes (`gateway.dfy`).
- **Browser (`auto_translate.js`).**
  - The render projector: a content container and its title elements as
    classes whose methods change them in place, each proved against a
    specification function on a value view (`projector.dfy`).
  - The orchestrator: the per-article cache `state`, the `pending` set,
    the start of a request and its completions, and the replay of a cached
    result (`orchestrator.dfy`).
- **Shared helpers (`common.dfy`).** Option, ASCII case mapping, PHP `trim`,
  PHP and JavaScript truthiness, and the two sequence filters the page
  code relies on.

Modelling choices:
- **Markup.** Markup is a sequence of tokens: `Text`, `Img(tag)` for a match
  of `<img\b[^>]*>`, and `Marker(index)` for a placeholder span the restore
  pattern recognises. `StripRendered` proves that stripping toggles token
  by token equals stripping the rendered string, for well-formed token
  sequences.
- **Containers.** A container's `innerHTML` is its child sequence, so
  capturing and restoring it copies the sequence.
- **Dataset sentinels.** They are `Option` values read with JavaScript
  truthiness: a captured empty string counts as no capture.
- **Asynchrony.** The XHR's callbacks are separate methods (`OnReply`,
  `OnTransportError`) that the caller invokes after `Fetch`. A ghost
  multiset of requests in flight makes "at most one request per article" an
  invariant of the orchestrator object.
- **Document queries.** They are inputs: the elements each selector matched,
  in document order.

The model follows the code where the code and its design description
differ:
- A marker whose index has no stored tag is left as it was
  (init.php:380), not replaced by nothing.
- A reply that is not an object raises no notification even for a manual
  request: `handleError` is called without the manual flag
  (auto_translate.js:280).

Behaviour of the code as written that the model proves and keeps:
- One pass of toggle removal can leave a toggle behind: `"SC_SC_ONON"`
  becomes `"SC_ON"` (`ControlMarkers.StripMayLeaveMarker`).
- A marker span already present in an article is taken for one of
  protect's own markers. After the round trip a span with index k shows
  the article's k-th image, which then appears twice; a span whose index
  has no image is kept as it was (`Placeholders.PreexistingMarkerTakesImage`,
  with the smallest case, index 0, in `Placeholders.PreexistingMarkerIsReplaced`).
- A service URL made of slashes only is stored as the empty string
  (`Settings.SlashOnlyUrlStoredEmpty`).
- A blank before a final slash survives one save and is removed by the
  next one, so `save()` is not idempotent on such a URL
  (`Settings.UrlKeepsBlankBeforeSlash`).
- A provider that reports the detected language as a JSON object is read
  through `reset()`, so only the object's first member counts:
  `{"language": "FR", ...}` yields "fr", and an object whose first member
  is not a string yields no detected language
  (`Gateway.ObjectDetectionFirstMember`).
- An empty but present title attribute is removed on restore
  (`Projector.EmptyTitleAttributeLost`).
- In replace mode an empty container captures nothing usable, so a second
  render captures the translation itself
  (`Projector.EmptyContainerCapturesTranslation`).
- Without a target, the body's tooltip is an arrow pointing at nothing when
  a language was detected (`Projector.LabelsAgree`).

## Model

| member | source | states |
|---|---|---|
| Common.Lower | init.php:181 | strtolower maps ASCII capitals to small letters character by character, keeps the length, and leaves no capital |
| Common.TrimLeft | init.php:177 | the left half of trim removes exactly a maximal run of the given characters from the start: the result is a suffix, does not start with one of them, and everything removed is one of them |
| Common.TrimRight | init.php:178 | rtrim removes exactly a maximal run of the given characters from the end: the result is a prefix, does not end in one of them, and everything removed is one of them |
| Common.Upper | auto_translate.js:72-73 | toUpperCase maps ASCII small letters to capitals character by character, keeps the length, and leaves no small letter |
| Common.Trim | init.php:177 | trim never lengthens its input |
| Common.OrNull | auto_translate.js:289-290 | `v \|\| null` is present exactly when v is a non-empty string, and is then v |
| Common.FilterMembers | auto_translate.js:358-372 | filtering keeps exactly the children that satisfy the predicate: every kept element comes from the input and satisfies it, and every input element that satisfies it is kept |
| Common.Distinct | auto_translate.js:207-210 | keeping first occurrences gives a sequence without repeats that holds exactly the input's elements |
| Common.DistinctOfDistinct | auto_translate.js:207-210 | a sequence without repeats is left unchanged by deduplication |
| Settings.Defaults | init.php:12-22 | the defaults: a non-empty URL, a lower-case target, a mode and display modes among the allowed choices, titles off |
| Settings.FilterBool | init.php:197 | a missing field reads as false |
| Settings.Choose | init.php:187-201 | a posted choice is kept when it is one of the allowed values and replaced by the default otherwise, so the result is always allowed |
| Settings.NormalizeUrl | init.php:177-178 | an empty trimmed URL gives the default; otherwise the result is the trimmed input with exactly its trailing slashes removed, and it never ends in a slash |
| Settings.NormalizeTarget | init.php:181-185 | the target is the trimmed, lower-cased input, or "en" when that is empty; it is never empty and never has a capital |
| Settings.Save | init.php:176-211 | every stored field as save() computes it: mode and both display modes within their whitelists, target non-empty and lower case, URL without a trailing slash or the default, API key trimmed, titles flag exactly when filter_var reads true |
| Settings.FormOf | init.php:102-165 | the preference form shows the stored URL and target, and posts the titles checkbox exactly when it is ticked |
| Settings.SaveOfResaveable | init.php:176-211 | a configuration with a non-empty trimmed URL without trailing slash, a trimmed key, a trimmed lower-case target and allowed choices is stored unchanged when its own form is saved |
| Settings.SaveDefaults | init.php:176-211 | saving the untouched form of the defaults stores the defaults |
| Settings.TrimmedEnds | init.php:177 | trim leaves no blank at either end |
| Settings.TrimOfTrimmed | init.php:177 | a string that neither starts nor ends with a blank is its own trim |
| Settings.UrlStable | init.php:177-178 | a non-empty URL with no blank at either end and no trailing slash is stored as it is |
| Settings.TargetStable | init.php:181-185 | normalising a stored target again changes nothing |
| Settings.ApiKeyStable | init.php:180 | trimming a trimmed API key changes nothing |
| Settings.CheckboxStable | init.php:197 | the checkbox value "1" reads as true, and a missing field reads as false |
| Settings.SaveIdempotent | init.php:176-211 | saving a stored configuration again stores the same configuration, when its URL is non-empty and carries no blank at either end |
| Settings.UrlKeepsBlankBeforeSlash | init.php:177-178 | "a /" is stored as "a " and that as "a": save() is not idempotent on a blank before a final slash |
| Settings.SlashOnlyUrlStoredEmpty | init.php:177-178 | a URL of slashes only is stored empty instead of falling back to the default |
| ControlMarkers.Strip | init.php:372 | the removal never lengthens the text |
| ControlMarkers.StripShortens | init.php:372 | text holding a toggle is strictly shortened by the removal |
| ControlMarkers.StripKeepsMarkerFree | init.php:372 | text without SC_ON or SC_OFF is left unchanged by the removal |
| ControlMarkers.StripUnchangedIff | init.php:372 | the removal leaves text unchanged if and only if the text holds no toggle |
| ControlMarkers.StripMayLeaveMarker | init.php:372 | one pass does not guarantee toggle-free output: "SC_SC_ONON" becomes "SC_ON" |
| ControlMarkers.StripAppend | init.php:372 | removal distributes over a concatenation whose seam no toggle can straddle |
| Placeholders.NatToString | init.php:293-295 | the index written into a marker is a non-empty run of decimal digits |
| Placeholders.IndexRoundTrip | init.php:376-378 | reading back the digits of a marker with (int) gives the index that was written |
| Placeholders.MarkerHtml | init.php:293-295 | a marker span starts with '<' and ends with '>' |
| Placeholders.Protected | init.php:286-298 | protect keeps the number of tokens |
| Placeholders.ProtectedAt | init.php:286-298 | the token at position j is kept, or, when it is an image, becomes the marker numbered by the images before it |
| Placeholders.PlaceholderMap | init.php:289-291 | the placeholder array has at most one entry per token |
| Placeholders.PlaceholderMapIndexes | init.php:289-291 | the placeholder array has keys 0 to n-1 for the n image tags and holds the k-th tag in source order at key k |
| Placeholders.Protect | init.php:286-298 | the loop produces the protected markup and the placeholder array: non-image tokens unchanged, the image with k images before it replaced by marker k, and that exact tag stored at key k; the array has one key per image |
| Placeholders.Restore | init.php:374-384 | each marker whose index has an entry becomes the stored tag, every other token is kept, including a marker with an unknown index, and nothing changes when the array is empty |
| Placeholders.RoundTrip | init.php:286-384 | markup without marker spans of its own comes back unchanged through protect and restore when the provider returns the markers untouched |
| Placeholders.RestoreFollowsIndex | init.php:374-384 | wherever the provider moves the marker of the image at position i, restore puts that image there |
| Placeholders.PreexistingMarkerTakesImage | init.php:286-384 | a marker span already in the article, with index k, comes back from the round trip as the article's k-th image when there is one, and unchanged otherwise |
| Placeholders.PreexistingMarkerIsReplaced | init.php:286-384 | the smallest case: a span with index 0 before the only image is restored as that image, which then appears twice |
| Placeholders.StripTokens | init.php:372 | the reply is stripped token by token: text and tags lose their toggles, markers are kept |
| Placeholders.TagsSurviveStripping | init.php:371-384 | because stripping runs before restore, an image tag comes back verbatim even when it contains a toggle |
| Placeholders.EchoRoundTrip | init.php:286-384 | with a provider that echoes its input, markup without toggles or marker spans of its own comes back unchanged through strip and restore |
| Placeholders.StripRendered | init.php:372 | stripping a well-formed token sequence token by token gives the same string as stripping the rendered markup |
| Gateway.SourceLanguage | init.php:268 | the source language is the article's own when that is truthy, otherwise "auto"; it is never falsy |
| Gateway.Precheck | init.php:219-284 | the checks in their order: invalid id, not authenticated, not found, not configured, port other than 80 or 443, already in the target language (a skip), empty content; no error exactly when every check passes |
| Gateway.Endpoint | init.php:259 | the endpoint is the URL without trailing slashes followed by "/translate" |
| Gateway.KeyParam | init.php:311-313 | api_key is sent exactly when it is not empty, and then with the configured value |
| Gateway.BodyCall | init.php:304-320 | the body call posts the protected markup as html with the article's source language, the target, the optional key and a 30 s timeout |
| Gateway.Reset | init.php:344-346 | reset() gives the first element of an array, the first member's value of an object, false for an empty one, and any other value unchanged |
| Gateway.NormalizeDetected | init.php:342-352 | a detected language exists exactly when reset() of the reply's value is a string, and it is that string in lower case |
| Gateway.TranslatedBody | init.php:371-384 | the body given to the sanitizer: text tokens stripped of toggles, each marker with a known index replaced by the tag of that image, others kept |
| Gateway.TitleSource | init.php:392-400 | the title is sent in the article's language, or the detected language when the article's is "auto", and "auto" when that is falsy; never an empty source |
| Gateway.TitleCall | init.php:398-414 | the title call posts the trimmed title as text with the title source, the target, the optional key and a 15 s timeout |
| Gateway.TitleResult | init.php:416-424 | a translated title exists exactly when the reply decoded to a string translatedText, and it is that text stripped of toggles and trimmed |
| Gateway.TitleWanted | init.php:388-391 | the title is sent only when titles are on and the trimmed title is not empty |
| Gateway.Accepted | init.php:386-444 | on success the body call is followed by a title call exactly when the title is wanted, and the outcome carries the sanitizer's arguments, the detected language, the mode and the title the second reply yields |
| Gateway.Translate | init.php:216-446 | a failed check makes no provider call; otherwise the body call comes first and a title call, if any, second; transport and decoding failures give their errors and metadata; a reply that decodes is skipped, after the body call alone, exactly when the source is automatic and the detected language is the target; success holds exactly when no check fails, the reply decodes and no such skip applies, and then carries the sanitizer's arguments, the detected language and the mode; on success the title is asked for exactly when wanted and reported as its reply reads |
| Gateway.SkipBeforeEmptyContent | init.php:268-284 | an article recorded in the target language, in any case, is skipped without a provider call even when its content is empty |
| Gateway.PortRefused | init.php:261-266 | an explicit port other than 80 or 443 is refused with the port in the message and no provider call |
| Gateway.ExplicitSourceIsNotSkipped | init.php:354-369 | with an explicit source language a detected target language does not cause a skip |
| Gateway.AutoSourceDetectedTargetIsSkipped | init.php:354-369 | with an automatic source a detected target language gives a skip naming it in capitals, after exactly the body call |
| Gateway.TitleFailureSwallowed | init.php:386-426 | a failed or malformed title reply never changes the outcome except that no translated title is reported |
| Gateway.TitleUsesDetectedSource | init.php:392-400 | an article without a recorded language has its title sent in the detected language |
| Gateway.ObjectDetectionFirstMember | init.php:342-352 | a detected language given as a JSON object is its first member: {"language": "FR", ...} yields "fr", and an object whose first member is not a string yields none |
| Gateway.EchoProviderRoundTrip | init.php:286-446 | with a provider that echoes the protected markup, the sanitizer receives the article's own markup, images included |
| Projector.IsReplaceMode | auto_translate.js:12-14 | replace mode exactly when the display mode is "replace"; a missing mode means append |
| Projector.IsTitleReplaceMode | auto_translate.js:16-28 | title replace mode exactly when titles are translated and the title display mode is "replace" |
| Projector.UpperOrEmpty | auto_translate.js:72-73 | the label part is empty exactly when the language value is falsy |
| Projector.BodyLabel | auto_translate.js:384-393 | the body's tooltip is never empty, and with a target and no detected language it is the target in capitals |
| Projector.TitleLabel | auto_translate.js:72-76 | the title's tooltip is empty exactly when there is no target, and with a target and no detected language it is the target in capitals |
| Projector.LabelsAgree | auto_translate.js:72-76 | with a target the body and title tooltips agree and end in the target in capitals; without one the title has none and the body falls back to the generic label, or to a dangling arrow when a language was detected |
| Projector.ArrowIffLanguagesDiffer | auto_translate.js:387-393 | the tooltip differs from the bare target exactly when a detected language differs from it in capitals |
| Projector.EnsuredOriginal | auto_translate.js:130-136 | the original is captured only in replace mode and only when no truthy capture exists; children and class are untouched |
| Projector.RestoredOriginal | auto_translate.js:138-148 | a no-op in append mode; in replace mode the captured content comes back when there is one, the replaced class goes, and the capture is kept |
| Projector.WithoutMessages | auto_translate.js:463-465 | removing messages keeps the capture and the class and never adds a child |
| Projector.WithoutBlocks | auto_translate.js:352 | removing blocks keeps the capture and the class and never adds a child |
| Projector.ShownMessage | auto_translate.js:450-461 | showMessage keeps the capture and the class and leaves the new message last |
| Projector.ShowMessageLeavesOne | auto_translate.js:450-465 | after showMessage the container holds exactly one message, the new one, last, after the other children in their order |
| Projector.AppendShape | auto_translate.js:347-448 | append mode leaves no message and exactly one translation block, the new one, last, after the other children in their order |
| Projector.ReplaceShape | auto_translate.js:347-411 | replace mode sets the replaced class, captures the original unless one exists, and leaves the wrapper followed by the attachments in their original order |
| Projector.AttachmentsSurviveClearing | auto_translate.js:350-372 | removing messages and blocks first changes neither which attachments are kept nor their order |
| Projector.RenderIdempotent | auto_translate.js:347-448 | rendering the same translation twice gives what rendering it once gives, in replace mode provided the first render left a truthy capture |
| Projector.ReplaceIdempotent | auto_translate.js:354-411 | a second replace-mode render keeps the same wrapper and attachments |
| Projector.AppendIdempotent | auto_translate.js:414-447 | a second append-mode render replaces the block instead of adding one |
| Projector.EmptyContainerCapturesTranslation | auto_translate.js:130-136 | an empty container captures an empty original, which counts as none, so a second render captures the translation as the original |
| Projector.ReplaceThenRestore | auto_translate.js:138-148 | replace followed by restore gives back the children as they were without messages and blocks, without the replaced class |
| Projector.ErrorRestoresOriginal | auto_translate.js:337-341 | the error path on a captured container shows the captured content without messages, then the error message alone |
| Projector.CaptureIsKept | auto_translate.js:130-136 | a capture survives every later ensureOriginal whatever the children have become |
| Projector.FilterNodes | auto_translate.js:358-372 | the loop keeps exactly the children the predicate accepts, in order |
| Projector.Container.EnsureOriginal | auto_translate.js:130-136 | the container's new state is the capture rule applied to its old state |
| Projector.Container.RestoreOriginal | auto_translate.js:138-148 | the container's new state is the restore rule applied to its old state |
| Projector.Container.RemoveMessage | auto_translate.js:463-465 | every message child is removed and nothing else changes |
| Projector.Container.RemoveBlocks | auto_translate.js:352 | every translation block is removed and nothing else changes |
| Projector.Container.ShowMessage | auto_translate.js:450-461 | the old messages go and the new message is appended |
| Projector.Container.RenderTranslation | auto_translate.js:347-448 | the container's new state is the append or replace rendering of its old state |
| Projector.TitleCaptured | auto_translate.js:30-37 | the title's text and attribute are captured only when no truthy capture exists |
| Projector.TitleRestored | auto_translate.js:39-60 | supplements and the replaced class go; text comes back from a capture, and the attribute is restored when non-empty and removed when empty; the captures stay |
| Projector.TitleShown | auto_translate.js:78-126 | replace mode shows the icon and the translation and sets the tooltip, or else the original attribute, or removes it; both modes first capture the text and the attribute when not yet captured; replace mode then shows the icon and the translation and sets the tooltip, or else the original attribute, or removes it; append mode inserts a supplement right after the title and keeps the title's text and attribute |
| Projector.TitleRendered | auto_translate.js:62-128 | renderTitle restores first, stops there when titles are off or there is no translation, and otherwise captures and shows |
| Projector.TitleCaptureOnce | auto_translate.js:30-37 | capturing a title twice captures once |
| Projector.TitleRoundTrip | auto_translate.js:39-128 | a title shown in either mode and restored shows its original text and attribute again, with no supplement and no replaced class |
| Projector.EmptyTitleAttributeLost | auto_translate.js:30-60 | a present but empty title attribute is removed by capture followed by restore |
| Projector.TitleElement.Capture | auto_translate.js:30-37 | the element's new state is the capture rule applied to its old state |
| Projector.TitleElement.Restore | auto_translate.js:39-60 | the element's new state is the restore rule applied to its old state |
| Projector.TitleElement.Show | auto_translate.js:78-126 | the element's new state is the display rule applied to its old state |
| Orchestrator.DomText | auto_translate.js:458 | a string written into the page is shown as it is |
| Orchestrator.Dedupe | auto_translate.js:207-210 | the loop pushes an element only when it is not already there, giving the first occurrences in order |
| Orchestrator.FindContainers | auto_translate.js:204-227 | the container found inside the rendered node, or else every page match once each; never the same element twice |
| Orchestrator.FindTitleElements | auto_translate.js:229-247 | every element a title selector matched, once each |
| Orchestrator.ApplyStep | auto_translate.js:258-341 | one forEach body changes its container exactly as its specification function says |
| Orchestrator.ForEachContainer | auto_translate.js:258-271 | the loop applies the same body to every container once and to nothing else |
| Orchestrator.ForEachTitle | auto_translate.js:31-59 | the loop applies the same body to every distinct title element once |
| Orchestrator.ForEachTitleMatch | auto_translate.js:229-247 | a forEach over findTitleElements changes every matched title exactly once, even when several selectors matched it |
| Orchestrator.RenderTitle | auto_translate.js:62-128 | every matched title ends in its renderTitle state |
| Orchestrator.ShowRequestStarted | auto_translate.js:255-271 | before the request every title is captured then restored, and every container is prepared and shows the progress message |
| Orchestrator.NewEntry | auto_translate.js:279-321 | an ok reply caches its translation, target, detected language and title; a skipped reply caches a skipped entry without a title; any other reply leaves no entry |
| Orchestrator.ErrorText | auto_translate.js:279-320 | the error shown is the reply's own message when truthy, and never empty |
| Orchestrator.ReplyStep | auto_translate.js:284-321 | an ok reply renders the translation; a skipped reply reverts and shows its message as information; anything else reverts and shows the error |
| Orchestrator.ReplyTitle | auto_translate.js:284-335 | only an ok reply renders a translated title |
| Orchestrator.ReplyNotice | auto_translate.js:279-345 | a notification only for a manual request whose reply is an object and not ok: information for a skip, an error otherwise |
| Orchestrator.Updated | auto_translate.js:284-306 | the cache entry of this article is set or deleted and every other entry is kept |
| Orchestrator.Orchestrator.constructor | auto_translate.js:7-10 | the orchestrator starts with an empty cache, nothing pending and nothing in flight |
| Orchestrator.Orchestrator.HandleError | auto_translate.js:333-345 | the entry is deleted, titles are restored, every container reverts and shows the error, and a manual request raises an error notification |
| Orchestrator.Orchestrator.Fetch | auto_translate.js:249-273 | nothing happens when the article is pending; otherwise it becomes pending, one request is added to those in flight, and titles and containers are prepared |
| Orchestrator.Orchestrator.ShowOutcome | auto_translate.js:284-317 | an ok or skipped reply records its cache entry, moves every container to the reply's state and renders the titles with the reply's title |
| Orchestrator.Orchestrator.OnReply | auto_translate.js:273-321 | the article stops being pending exactly once, the cache is updated from the reply, containers and titles show the reply, and the notification is the reply's |
| Orchestrator.Orchestrator.OnTransportError | auto_translate.js:322-330 | the article stops being pending exactly once and the error path runs with "Translation request failed." |
| Orchestrator.Orchestrator.Resume | auto_translate.js:172-186 | with containers found, titles are captured; a cached ok result is replayed on containers and titles; otherwise a request starts exactly in automatic mode when the article is not pending, and the page is prepared; with neither, only the titles change |
| Orchestrator.Orchestrator.ProcessRendered | auto_translate.js:161-187 | a cached ok result is rendered again, body and title, without a request; a request starts exactly when the id is valid, containers are found, no ok result is cached, the mode is automatic and the article is not pending, and then the found containers are prepared and show progress; without an id or a container nothing on the page changes; a page match outside the containers found (auto_translate.js:204-227) is never touched |
| Orchestrator.Orchestrator.Request | auto_translate.js:150-159 | without a container the user gets an error notification, no request starts and nothing on the page changes; otherwise a request starts unless one is pending, and only a started one prepares the containers and titles |
| Orchestrator.AtMostOneRequestPerArticle | auto_translate.js:249-253 | an article has at most one request in flight, and one exactly when it is pending |
| Orchestrator.FetchCaptures | auto_translate.js:255-262 | in replace mode a request leaves the original captured: the earlier capture, or the children at the start |
| Orchestrator.RevertAfterCapture | auto_translate.js:337-341 | reverting a captured container shows the captured content without messages, then the message alone |
| Orchestrator.FetchThenErrorRestores | auto_translate.js:255-341 | after a request and an error in replace mode, the container shows what it had before the request, without messages, then the error |
| Orchestrator.FetchThenErrorAppend | auto_translate.js:255-341 | after a request and an error in append mode, the earlier block and every message are gone, the other children keep their order, the error alone follows them, and the capture and class are untouched |
| Orchestrator.TwoRendersOneRequest | auto_translate.js:184-186 | a second render while the first request is under way starts no second request |

## Left out

- The database query, the HTTP client, `json_decode`/`json_encode` and the
  HTML sanitizer are not modelled. The row, the provider's replies and the
  decoded reply are inputs, and the sanitizer's arguments are recorded in
  the outcome.
- `parse_url` is replaced by an optional port, and the PCRE engine by the
  token sequence.
  - Whatever a provider places between a marker span's tags is dropped on
    restore. The token model has no such content, so this is not captured.
  - The fallbacks for a failing `preg_*` call (`?? $translated`, keeping the
    unprotected body) do not arise in the token model.
- Integer conversions are not bounded.
  - `(int)` of the request id and of a marker's digits is taken without
    overflow.
  - The `(string)` cast of a non-string `translatedText` is not modelled:
    the decoded reply carries markup.
- The session uid is an optional integer. PHP truthiness of other session
  values is not modelled.
- `clean()` on the posted URL is taken as the identity.
- The translated UI strings pass through `__()` unchanged.
- Case mapping is ASCII only. JavaScript's Unicode `toUpperCase` is not
  modelled.
- The preference form markup, the article button, `about`, `flags`,
  `api_version`, `get_js`, `get_css`, hook registration and the legacy-URL
  migration in `init` are user interface and host lifecycle.
- `getArticleId` and the `PluginHost` hooks are not modelled: the article id
  is an input.
- `Notify` is a returned notice. The loading class on the source icon and the
  console warning are not modelled.
- The DOM is flattened:
  - a container is its children, with no nesting;
  - `innerHTML` serialisation is taken as the identity;
  - element, icon and class construction is reduced to the child kind and its
    tooltip and text.
- `restoreTitles` removes every supplement for the article across the
  document. The model removes each title's own supplements.
- The callbacks run one at a time on the page's single event loop. The model
  calls them as methods after `Fetch` and has no concurrency.
- The two identical definitions of `isTitleReplaceMode` are modelled once.
- The title selectors can match nested elements: an `a.title` inside a
  `.title` element, both matched (auto_translate.js:229-247). The model
  treats the matched elements as independent, so writing the text of the
  outer one does not replace the inner one.
- Orchestrator.DomText: states only the case of a present string. A missing
  value shows as "undefined". A reply field that is JSON null or not a
  string is also read as absent, so the model shows "undefined" where the
  browser would show "" for null and the digits for a number.
