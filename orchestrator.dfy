/** The browser-side orchestrator (auto_translate.js:7-10, 150-345): the
    cache of results per article, the set of articles with a request under
    way, the start of a request and its three ways of completing, and the
    replay of a cached result when an article is rendered again.

    The XHR completes later, in a callback of its own; here the start is
    Fetch and each completion is a method the caller invokes afterwards
    (OnReply, OnTransportError). A ghost multiset counts the requests that
    have started and not completed, so that "at most one request per
    article" is an invariant of the object. Document queries are inputs:
    the elements the selectors matched, in document order. */
module Orchestrator {
  import opened Common
  import opened Settings
  import opened Projector

  /** A cached result (auto_translate.js:285-291, 300-306). */
  datatype Entry =
    | OkEntry(translated: Option<string>, target: Option<string>, detected: Option<string>,
              titleTranslated: Option<string>)
    | SkippedEntry(message: Option<string>, target: Option<string>, detected: Option<string>)

  /** The decoded reply of the gateway; a field that is absent or not a
      string is None. */
  datatype Reply =
    | NotObject
    | Object(status: Option<string>, message: Option<string>, translated: Option<string>,
             target: Option<string>, detected: Option<string>, titleTranslated: Option<string>)

  /** A Notify.info / Notify.error call. */
  datatype Notice = InfoNotice(text: string) | ErrorNotice(text: string)

  const Translating := "Translating article..."
  const RequestFailed := "Translation request failed."
  const Unexpected := "Unexpected response from translation service."
  const NoContent := "Unable to locate article content to translate."

  /** What the DOM holds after a possibly missing string is written into
      it: undefined becomes the text "undefined". */
  function DomText(v: Option<string>): (r: string)
    ensures v.Some? ==> r == v.value
  {
    v.GetOr("undefined")
  }

  // ---------------------------------------------------------------------
  // Keeping the first occurrence
  // ---------------------------------------------------------------------

  /** Pushing each element unless the array already includes it
      (auto_translate.js:207-210), or adding it to a Set and reading the
      Set back (237-246). */
  method Dedupe<T(==)>(xs: seq<T>) returns (r: seq<T>)
    ensures r == Distinct(xs)
  {
    r := [];
    var i := 0;
    while i < |xs|
      invariant 0 <= i <= |xs|
      invariant r == Distinct(xs[..i])
    {
      assert xs[..i + 1][..i] == xs[..i];
      if xs[i] !in r {
        r := r + [xs[i]];
      }
      i := i + 1;
    }
    assert xs[..i] == xs;
  }

  /** The containers findContainers returns: the one found inside the
      rendered node, or else every match on the page, each once. */
  function Found(contextHit: seq<Container>, pageMatches: seq<Container>): seq<Container> {
    if contextHit != [] then contextHit else Distinct(pageMatches)
  }

  /** findContainers (auto_translate.js:204-227). contextHit is what the
      query inside the rendered node found (at most one element), and
      pageMatches what the two page-wide queries found. */
  method FindContainers(contextHit: seq<Container>, pageMatches: seq<Container>) returns (r: seq<Container>)
    requires |contextHit| <= 1
    ensures r == Found(contextHit, pageMatches)
    ensures NoDuplicates(r)
    ensures forall j :: 0 <= j < |pageMatches| && contextHit == [] ==> pageMatches[j] in r
  {
    r := Dedupe(contextHit);
    if r == [] {
      r := Dedupe(pageMatches);
    } else {
      DistinctOfDistinct(contextHit);
    }
  }

  /** findTitleElements (auto_translate.js:229-247): titleMatches is what
      the four selectors matched, one after the other. */
  method FindTitleElements(titleMatches: seq<TitleElement>) returns (r: seq<TitleElement>)
    ensures r == Distinct(titleMatches) && NoDuplicates(r)
    ensures forall j :: 0 <= j < |titleMatches| ==> titleMatches[j] in r
  {
    r := Dedupe(titleMatches);
  }

  // ---------------------------------------------------------------------
  // The forEach bodies over containers
  // ---------------------------------------------------------------------

  datatype ContainerStep =
    | Prepare                                   // auto_translate.js:258-262
    | Announce(text: string, kind: MessageKind) // 268-271
    | ShowReply(html: string, target: Option<string>, detected: Option<string>) // 293-296
    | Replay(html: string, target: Option<string>, detected: Option<string>)    // 177-178
    | Revert(text: string, kind: MessageKind)   // 308-312, 337-341

  function Stepped(cfg: Config, v: ContainerView, step: ContainerStep): ContainerView {
    match step
    case Prepare => WithoutBlocks(RestoredOriginal(cfg, EnsuredOriginal(cfg, v)))
    case Announce(text, kind) => ShownMessage(WithoutMessages(v), text, kind)
    case ShowReply(html, target, detected) => Rendered(cfg, WithoutMessages(v), html, target, detected)
    case Replay(html, target, detected) => Rendered(cfg, v, html, target, detected)
    case Revert(text, kind) => ShownMessage(WithoutMessages(RestoredOriginal(cfg, v)), text, kind)
  }

  /** One forEach body on one container. */
  method ApplyStep(cfg: Config, c: Container, step: ContainerStep)
    modifies c
    ensures c.View() == Stepped(cfg, old(c.View()), step)
  {
    match step {
      case Prepare =>
        c.EnsureOriginal(cfg);
        c.RestoreOriginal(cfg);
        c.RemoveBlocks();
      case Announce(text, kind) =>
        c.RemoveMessage();
        c.ShowMessage(text, kind);
      case ShowReply(html, target, detected) =>
        c.RemoveMessage();
        c.RenderTranslation(cfg, html, target, detected);
      case Replay(html, target, detected) =>
        c.RenderTranslation(cfg, html, target, detected);
      case Revert(text, kind) =>
        c.RestoreOriginal(cfg);
        c.RemoveMessage();
        c.ShowMessage(text, kind);
    }
  }

  method ForEachContainer(cfg: Config, containers: seq<Container>, step: ContainerStep)
    requires NoDuplicates(containers)
    modifies containers
    ensures forall j :: 0 <= j < |containers| ==>
              containers[j].View() == Stepped(cfg, old(containers[j].View()), step)
  {
    var i := 0;
    while i < |containers|
      invariant 0 <= i <= |containers|
      invariant forall j :: 0 <= j < i ==> containers[j].View() == Stepped(cfg, old(containers[j].View()), step)
      invariant forall j :: i <= j < |containers| ==> containers[j].View() == old(containers[j].View())
    {
      var c := containers[i];
      assert forall j :: 0 <= j < |containers| && j != i ==> containers[j] != c;
      ApplyStep(cfg, c, step);
      i := i + 1;
    }
  }

  // ---------------------------------------------------------------------
  // The forEach bodies over titles
  // ---------------------------------------------------------------------

  datatype TitleStep = CaptureStep | RestoreStep | ShowStep(translated: string, tooltip: string)

  function TitleStepped(cfg: Config, v: TitleView, step: TitleStep): TitleView {
    match step
    case CaptureStep => TitleCaptured(v)
    case RestoreStep => TitleRestored(v)
    case ShowStep(translated, tooltip) => TitleShown(cfg, v, translated, tooltip)
  }

  method ForEachTitle(cfg: Config, titles: seq<TitleElement>, step: TitleStep)
    requires NoDuplicates(titles)
    modifies titles
    ensures forall j :: 0 <= j < |titles| ==> titles[j].View() == TitleStepped(cfg, old(titles[j].View()), step)
  {
    var i := 0;
    while i < |titles|
      invariant 0 <= i <= |titles|
      invariant forall j :: 0 <= j < i ==> titles[j].View() == TitleStepped(cfg, old(titles[j].View()), step)
      invariant forall j :: i <= j < |titles| ==> titles[j].View() == old(titles[j].View())
    {
      var t := titles[i];
      assert forall j :: 0 <= j < |titles| && j != i ==> titles[j] != t;
      match step {
        case CaptureStep => t.Capture();
        case RestoreStep => t.Restore();
        case ShowStep(translated, tooltip) => t.Show(cfg, translated, tooltip);
      }
      i := i + 1;
    }
  }

  /** A forEach over findTitleElements(articleId): every element a selector
      matched is visited once. */
  method ForEachTitleMatch(cfg: Config, titleMatches: seq<TitleElement>, step: TitleStep)
    modifies titleMatches
    ensures forall j :: 0 <= j < |titleMatches| ==>
              titleMatches[j].View() == TitleStepped(cfg, old(titleMatches[j].View()), step)
  {
    var titles := FindTitleElements(titleMatches);
    ForEachTitle(cfg, titles, step);
    forall j | 0 <= j < |titleMatches|
      ensures titleMatches[j].View() == TitleStepped(cfg, old(titleMatches[j].View()), step)
    {
      var k :| 0 <= k < |titles| && titles[k] == titleMatches[j];
    }
  }

  /** renderTitle (auto_translate.js:62-128) over the article's titles. */
  method RenderTitle(cfg: Config, titleMatches: seq<TitleElement>, translated: Option<string>,
                     target: Option<string>, detected: Option<string>)
    modifies titleMatches
    ensures forall j :: 0 <= j < |titleMatches| ==>
              titleMatches[j].View() == TitleRendered(cfg, old(titleMatches[j].View()), translated, target, detected)
  {
    ForEachTitleMatch(cfg, titleMatches, RestoreStep);
    if !cfg.translateTitles || !JsTruthy(translated) {
      return;
    }
    ForEachTitleMatch(cfg, titleMatches, CaptureStep);
    ForEachTitleMatch(cfg, titleMatches, ShowStep(translated.value, TitleLabel(target, detected)));
  }

  /** What fetch does to the page before the XHR goes out
      (auto_translate.js:255-271). */
  method ShowRequestStarted(cfg: Config, containers: seq<Container>, titleMatches: seq<TitleElement>)
    requires NoDuplicates(containers)
    modifies containers, titleMatches
    ensures forall j :: 0 <= j < |containers| ==>
              containers[j].View() == Stepped(cfg, Stepped(cfg, old(containers[j].View()), Prepare), Announce(Translating, Progress))
    ensures forall j :: 0 <= j < |titleMatches| ==>
              titleMatches[j].View() == TitleRestored(TitleCaptured(old(titleMatches[j].View())))
  {
    ForEachTitleMatch(cfg, titleMatches, CaptureStep);
    ForEachTitleMatch(cfg, titleMatches, RestoreStep);
    ForEachContainer(cfg, containers, Prepare);
    ForEachContainer(cfg, containers, Announce(Translating, Progress));
  }

  // ---------------------------------------------------------------------
  // What a reply does
  // ---------------------------------------------------------------------

  predicate IsOk(reply: Reply) { reply.Object? && reply.status == Some("ok") }
  predicate IsSkipped(reply: Reply) { reply.Object? && reply.status == Some("skipped") }

  /** The entry a reply leaves in the cache, or None when it removes the
      article's entry (auto_translate.js:279-321, 334). */
  function NewEntry(reply: Reply): (r: Option<Entry>)
    ensures r.Some? <==> IsOk(reply) || IsSkipped(reply)
    ensures IsOk(reply) ==> r == Some(OkEntry(reply.translated, reply.target, OrNull(reply.detected), OrNull(reply.titleTranslated)))
    ensures IsSkipped(reply) ==> r == Some(SkippedEntry(reply.message, reply.target, OrNull(reply.detected)))
  {
    if IsOk(reply) then Some(OkEntry(reply.translated, reply.target, OrNull(reply.detected), OrNull(reply.titleTranslated)))
    else if IsSkipped(reply) then Some(SkippedEntry(reply.message, reply.target, OrNull(reply.detected)))
    else None
  }

  /** The message an error reply shows (auto_translate.js:280, 319). */
  function ErrorText(reply: Reply): (r: string)
    ensures r != ""
    ensures reply.Object? && JsTruthy(reply.message) ==> r == reply.message.value
  {
    if reply.NotObject? then Unexpected
    else if JsTruthy(reply.message) then reply.message.value
    else RequestFailed
  }

  /** The forEach body a reply runs over the containers. */
  function ReplyStep(reply: Reply): (r: ContainerStep)
    ensures IsOk(reply) <==> r.ShowReply?
    ensures !IsOk(reply) ==> r.Revert?
    ensures IsSkipped(reply) ==> r == Revert(DomText(reply.message), Info)
    ensures !IsOk(reply) && !IsSkipped(reply) ==> r == Revert(ErrorText(reply), Failure)
  {
    if IsOk(reply) then ShowReply(DomText(reply.translated), reply.target, OrNull(reply.detected))
    else if IsSkipped(reply) then Revert(DomText(reply.message), Info)
    else Revert(ErrorText(reply), Failure)
  }

  /** The translated title a reply renders: only an ok reply has one. */
  function ReplyTitle(reply: Reply): (r: Option<string>)
    ensures r.Some? ==> IsOk(reply) && JsTruthy(r)
  {
    if IsOk(reply) then OrNull(reply.titleTranslated) else None
  }

  /** The notification a reply raises: only for a request the user made,
      and never for a reply that is not an object (auto_translate.js:280,
      316-317, 343-344). */
  function ReplyNotice(reply: Reply, manual: bool): (r: Option<Notice>)
    ensures r.Some? ==> manual && reply.Object? && !IsOk(reply)
    ensures manual && IsSkipped(reply) ==> r == Some(InfoNotice(DomText(reply.message)))
    ensures manual && reply.Object? && !IsOk(reply) && !IsSkipped(reply) ==> r == Some(ErrorNotice(ErrorText(reply)))
  {
    if !manual || reply.NotObject? || IsOk(reply) then None
    else if IsSkipped(reply) then Some(InfoNotice(DomText(reply.message)))
    else Some(ErrorNotice(ErrorText(reply)))
  }

  function Updated(state: map<int, Entry>, id: int, e: Option<Entry>): (r: map<int, Entry>)
    ensures e.Some? ==> id in r && r[id] == e.value
    ensures e.None? ==> id !in r
    ensures forall k :: k in state && k != id ==> k in r && r[k] == state[k]
    ensures forall k :: k in r && k != id ==> k in state
  {
    if e.Some? then state[id := e.value] else state - {id}
  }

  // ---------------------------------------------------------------------
  // The orchestrator
  // ---------------------------------------------------------------------

  class Orchestrator {
    const config: Config
    var state: map<int, Entry>
    var pending: set<int>
    /** The articles whose request has started and not yet completed, with
        multiplicity. */
    ghost var inFlight: multiset<int>

    ghost predicate Valid()
      reads this
    {
      inFlight == multiset(pending)
    }

    constructor (config: Config)
      ensures Valid() && this.config == config && state == map[] && pending == {}
    {
      this.config := config;
      state := map[];
      pending := {};
      inFlight := multiset{};
    }

    /** handleError (auto_translate.js:333-345). */
    method HandleError(id: int, containers: seq<Container>, titleMatches: seq<TitleElement>, message: string, manual: bool)
      returns (notice: Option<Notice>)
      requires NoDuplicates(containers)
      modifies this`state, containers, titleMatches
      ensures state == old(state) - {id}
      ensures forall j :: 0 <= j < |containers| ==>
                containers[j].View() == Stepped(config, old(containers[j].View()), Revert(message, Failure))
      ensures forall j :: 0 <= j < |titleMatches| ==> titleMatches[j].View() == TitleRestored(old(titleMatches[j].View()))
      ensures notice == if manual then Some(ErrorNotice(message)) else None
    {
      state := state - {id};
      ForEachTitleMatch(config, titleMatches, RestoreStep);
      ForEachContainer(config, containers, Revert(message, Failure));
      notice := if manual then Some(ErrorNotice(message)) else None;
    }

    /** fetch up to the XHR (auto_translate.js:249-273): nothing happens
        when the article already has a request under way. */
    method Fetch(id: int, containers: seq<Container>, titleMatches: seq<TitleElement>, manual: bool)
      returns (started: bool)
      requires Valid() && NoDuplicates(containers)
      modifies this`pending, this`inFlight, containers, titleMatches
      ensures Valid()
      ensures started <==> id !in old(pending)
      ensures pending == old(pending) + {id}
      ensures started ==> inFlight == old(inFlight) + multiset{id}
      ensures !started ==> inFlight == old(inFlight)
      ensures forall j :: 0 <= j < |containers| ==>
                containers[j].View() ==
                  if started then Stepped(config, Stepped(config, old(containers[j].View()), Prepare), Announce(Translating, Progress))
                  else old(containers[j].View())
      ensures forall j :: 0 <= j < |titleMatches| ==>
                titleMatches[j].View() ==
                  if started then TitleRestored(TitleCaptured(old(titleMatches[j].View())))
                  else old(titleMatches[j].View())
    {
      if id in pending {
        return false;
      }
      pending := pending + {id};
      inFlight := inFlight + multiset{id};
      ShowRequestStarted(config, containers, titleMatches);
      started := true;
    }

    /** An ok or skipped reply (auto_translate.js:284-317): the entry is
        recorded, the containers show the translation or the message, and
        the title shows the translated title an ok reply carries. */
    method ShowOutcome(id: int, containers: seq<Container>, titleMatches: seq<TitleElement>, reply: Reply)
      requires reply.Object? && (IsOk(reply) || IsSkipped(reply)) && NoDuplicates(containers)
      modifies this`state, containers, titleMatches
      ensures state == Updated(old(state), id, NewEntry(reply))
      ensures forall j :: 0 <= j < |containers| ==>
                containers[j].View() == Stepped(config, old(containers[j].View()), ReplyStep(reply))
      ensures forall j :: 0 <= j < |titleMatches| ==>
                titleMatches[j].View() ==
                  TitleRendered(config, old(titleMatches[j].View()), ReplyTitle(reply), reply.target, OrNull(reply.detected))
    {
      if IsOk(reply) {
        state := state[id := OkEntry(reply.translated, reply.target, OrNull(reply.detected), OrNull(reply.titleTranslated))];
        ForEachContainer(config, containers, ShowReply(DomText(reply.translated), reply.target, OrNull(reply.detected)));
        RenderTitle(config, titleMatches, OrNull(reply.titleTranslated), reply.target, OrNull(reply.detected));
      } else {
        state := state[id := SkippedEntry(reply.message, reply.target, OrNull(reply.detected))];
        ForEachContainer(config, containers, Revert(DomText(reply.message), Info));
        RenderTitle(config, titleMatches, None, reply.target, OrNull(reply.detected));
      }
    }

    /** The XHR's reply callback (auto_translate.js:273-321). */
    method OnReply(id: int, containers: seq<Container>, titleMatches: seq<TitleElement>, manual: bool, reply: Reply)
      returns (notice: Option<Notice>)
      requires Valid() && id in inFlight && NoDuplicates(containers)
      modifies this`state, this`pending, this`inFlight, containers, titleMatches
      ensures Valid()
      ensures pending == old(pending) - {id} && inFlight == old(inFlight) - multiset{id}
      ensures state == Updated(old(state), id, NewEntry(reply))
      ensures forall j :: 0 <= j < |containers| ==>
                containers[j].View() == Stepped(config, old(containers[j].View()), ReplyStep(reply))
      ensures forall j :: 0 <= j < |titleMatches| ==>
                titleMatches[j].View() ==
                  TitleRendered(config, old(titleMatches[j].View()), ReplyTitle(reply),
                                if reply.Object? then reply.target else None,
                                if reply.Object? then OrNull(reply.detected) else None)
      ensures notice == ReplyNotice(reply, manual)
    {
      pending := pending - {id};
      inFlight := inFlight - multiset{id};
      if reply.NotObject? {
        notice := HandleError(id, containers, titleMatches, Unexpected, false);
        return;
      }
      if IsOk(reply) || IsSkipped(reply) {
        ShowOutcome(id, containers, titleMatches, reply);
        notice := if IsSkipped(reply) && manual then Some(InfoNotice(DomText(reply.message))) else None;
      } else {
        var message := if JsTruthy(reply.message) then reply.message.value else RequestFailed;
        notice := HandleError(id, containers, titleMatches, message, manual);
      }
    }

    /** The XHR's failure callback (auto_translate.js:322-330). */
    method OnTransportError(id: int, containers: seq<Container>, titleMatches: seq<TitleElement>, manual: bool)
      returns (notice: Option<Notice>)
      requires Valid() && id in inFlight && NoDuplicates(containers)
      modifies this`state, this`pending, this`inFlight, containers, titleMatches
      ensures Valid()
      ensures pending == old(pending) - {id} && inFlight == old(inFlight) - multiset{id}
      ensures state == old(state) - {id}
      ensures forall j :: 0 <= j < |containers| ==>
                containers[j].View() == Stepped(config, old(containers[j].View()), Revert(RequestFailed, Failure))
      ensures forall j :: 0 <= j < |titleMatches| ==> titleMatches[j].View() == TitleRestored(old(titleMatches[j].View()))
      ensures notice == if manual then Some(ErrorNotice(RequestFailed)) else None
    {
      pending := pending - {id};
      inFlight := inFlight - multiset{id};
      notice := HandleError(id, containers, titleMatches, RequestFailed, manual);
    }

    /** The part of processRendered after the containers are found
        (auto_translate.js:172-186): the titles are captured, then a cached
        ok result is replayed, or, in automatic mode, a request starts
        unless one is under way. */
    method Resume(id: int, containers: seq<Container>, titleMatches: seq<TitleElement>)
      returns (fetched: bool)
      requires Valid() && NoDuplicates(containers)
      modifies this`pending, this`inFlight, containers, titleMatches
      ensures Valid()
      ensures fetched <==> !(id in state && state[id].OkEntry?) && config.mode == "auto_append" && id !in old(pending)
      ensures fetched ==> pending == old(pending) + {id} && inFlight == old(inFlight) + multiset{id}
      ensures !fetched ==> pending == old(pending) && inFlight == old(inFlight)
      // a replay renders the cached body and title
      ensures id in state && state[id].OkEntry? ==>
                var e := state[id];
                && (forall j :: 0 <= j < |containers| ==>
                      containers[j].View() == Rendered(config, old(containers[j].View()), DomText(e.translated), e.target, OrNull(e.detected)))
                && (forall j :: 0 <= j < |titleMatches| ==>
                      titleMatches[j].View() ==
                        TitleRendered(config, TitleCaptured(old(titleMatches[j].View())), e.titleTranslated, e.target, OrNull(e.detected)))
      // neither a replay nor a request: only the titles are captured
      ensures !(id in state && state[id].OkEntry?) && !fetched ==>
                && (forall j :: 0 <= j < |containers| ==> containers[j].View() == old(containers[j].View()))
                && (forall j :: 0 <= j < |titleMatches| ==> titleMatches[j].View() == TitleCaptured(old(titleMatches[j].View())))
      // a request that starts prepares the containers and shows progress
      ensures fetched ==>
                && (forall j :: 0 <= j < |containers| ==>
                      containers[j].View() ==
                        Stepped(config, Stepped(config, old(containers[j].View()), Prepare), Announce(Translating, Progress)))
                && (forall j :: 0 <= j < |titleMatches| ==>
                      titleMatches[j].View() == TitleRestored(TitleCaptured(TitleCaptured(old(titleMatches[j].View())))))
    {
      fetched := false;
      ForEachTitleMatch(config, titleMatches, CaptureStep);
      if id in state && state[id].OkEntry? {
        var e := state[id];
        ForEachContainer(config, containers, Replay(DomText(e.translated), e.target, OrNull(e.detected)));
        RenderTitle(config, titleMatches, e.titleTranslated, e.target, OrNull(e.detected));
        return;
      }
      if config.mode == "auto_append" && id !in pending {
        var started := Fetch(id, containers, titleMatches, false);
        fetched := true;
      }
    }

    /** processRendered (auto_translate.js:161-187): a cached ok result is
        shown again without a request; otherwise, in automatic mode, a
        request starts unless one is under way. */
    method ProcessRendered(articleId: Option<int>, contextHit: seq<Container>, pageMatches: seq<Container>,
                           titleMatches: seq<TitleElement>)
      returns (fetched: bool)
      requires Valid() && |contextHit| <= 1
      modifies this`pending, this`inFlight, contextHit, pageMatches, titleMatches
      ensures Valid()
      ensures fetched <==>
                && articleId.Some? && articleId.value != 0
                && Found(contextHit, pageMatches) != []
                && !(articleId.value in old(state) && old(state)[articleId.value].OkEntry?)
                && config.mode == "auto_append" && articleId.value !in old(pending)
      ensures fetched ==> pending == old(pending) + {articleId.value} && inFlight == old(inFlight) + multiset{articleId.value}
      ensures !fetched ==> pending == old(pending) && inFlight == old(inFlight)
      ensures articleId.Some? && articleId.value != 0 && articleId.value in old(state) && old(state)[articleId.value].OkEntry? ==>
                var e := old(state)[articleId.value];
                var found := Found(contextHit, pageMatches);
                forall j :: 0 <= j < |found| ==>
                  found[j].View() == Rendered(config, old(found[j].View()), DomText(e.translated), e.target, OrNull(e.detected))
      // without an id or a container nothing on the page changes
      ensures articleId.None? || articleId.value == 0 || Found(contextHit, pageMatches) == [] ==>
                && (forall t :: t in titleMatches ==> t.View() == old(t.View()))
                && (forall c :: c in contextHit ==> c.View() == old(c.View()))
                && (forall c :: c in pageMatches ==> c.View() == old(c.View()))
      // a page match outside the containers found is never touched
      ensures forall c :: c in pageMatches && c !in Found(contextHit, pageMatches) ==> c.View() == old(c.View())
      // with both but neither a replay nor a request, only the titles are captured
      ensures && articleId.Some? && articleId.value != 0 && Found(contextHit, pageMatches) != []
              && !(articleId.value in old(state) && old(state)[articleId.value].OkEntry?) && !fetched ==>
                && (forall t :: t in titleMatches ==> t.View() == TitleCaptured(old(t.View())))
                && (forall c :: c in Found(contextHit, pageMatches) ==> c.View() == old(c.View()))
      // a request that starts prepares the containers found and shows progress
      ensures fetched ==>
                && (forall t :: t in titleMatches ==> t.View() == TitleRestored(TitleCaptured(TitleCaptured(old(t.View())))))
                && (forall c :: c in Found(contextHit, pageMatches) ==>
                      c.View() == Stepped(config, Stepped(config, old(c.View()), Prepare), Announce(Translating, Progress)))
      // a replay also renders the cached title
      ensures articleId.Some? && articleId.value != 0 && Found(contextHit, pageMatches) != []
              && articleId.value in old(state) && old(state)[articleId.value].OkEntry? ==>
                var e := old(state)[articleId.value];
                forall t :: t in titleMatches ==>
                  t.View() == TitleRendered(config, TitleCaptured(old(t.View())), e.titleTranslated, e.target, OrNull(e.detected))
    {
      fetched := false;
      if articleId.None? || articleId.value == 0 {
        return;
      }
      var containers := FindContainers(contextHit, pageMatches);
      if |containers| == 0 {
        return;
      }
      fetched := Resume(articleId.value, containers, titleMatches);
    }

    /** request (auto_translate.js:150-159): the button's manual request. */
    method Request(id: int, pageMatches: seq<Container>, titleMatches: seq<TitleElement>)
      returns (started: bool, notice: Option<Notice>)
      requires Valid()
      modifies this`pending, this`inFlight, pageMatches, titleMatches
      ensures Valid()
      ensures pageMatches == [] ==> !started && notice == Some(ErrorNotice(NoContent)) && pending == old(pending)
      ensures pageMatches != [] ==> notice.None? && (started <==> id !in old(pending))
      ensures pageMatches != [] ==> pending == old(pending) + {id}
      // without a container nothing on the page changes
      ensures pageMatches == [] ==> forall t :: t in titleMatches ==> t.View() == old(t.View())
      // a request that starts prepares every matched container once and
      // captures then restores every title; one that does not changes nothing
      ensures forall c :: c in pageMatches ==>
                c.View() ==
                  if started then Stepped(config, Stepped(config, old(c.View()), Prepare), Announce(Translating, Progress))
                  else old(c.View())
      ensures forall t :: t in titleMatches ==>
                t.View() == if started then TitleRestored(TitleCaptured(old(t.View()))) else old(t.View())
    {
      var containers := FindContainers([], pageMatches);
      if |containers| == 0 {
        return false, Some(ErrorNotice(NoContent));
      }
      started := Fetch(id, containers, titleMatches, true);
      notice := None;
      forall c | c in pageMatches
        ensures c.View() ==
                  if started then Stepped(config, Stepped(config, old(c.View()), Prepare), Announce(Translating, Progress))
                  else old(c.View())
      {
        var k :| 0 <= k < |containers| && containers[k] == c;
      }
      forall t | t in titleMatches
        ensures t.View() == if started then TitleRestored(TitleCaptured(old(t.View()))) else old(t.View())
      {
        var k :| 0 <= k < |titleMatches| && titleMatches[k] == t;
      }
    }
  }

  // ---------------------------------------------------------------------
  // Properties
  // ---------------------------------------------------------------------

  /** Mutual exclusion: an article has at most one request under way, and
      it has one exactly when it is pending. */
  lemma AtMostOneRequestPerArticle(o: Orchestrator, id: int)
    requires o.Valid()
    ensures o.inFlight[id] <= 1
    ensures o.inFlight[id] == 1 <==> id in o.pending
  {
  }

  /** In replace mode a request leaves the container's original captured:
      the one it had, or else the children it had when the request began. */
  lemma FetchCaptures(cfg: Config, v: ContainerView)
    requires IsReplaceMode(cfg) && (HasCapture(v) || v.children != [])
    ensures var fetched := Stepped(cfg, Stepped(cfg, v, Prepare), Announce(Translating, Progress));
            fetched.original == Some(if HasCapture(v) then v.original.value else v.children)
  {
  }

  /** Reverting a container whose original is captured shows that
      original without messages, then the message alone. */
  lemma RevertAfterCapture(cfg: Config, w: ContainerView, original: seq<Node>, message: string, kind: MessageKind)
    requires IsReplaceMode(cfg) && w.original == Some(original) && original != []
    ensures var r := Stepped(cfg, w, Revert(message, kind));
            r.children == Filter(original, NotMessage) + [Message(kind, message)] && !r.replaced
  {
    var restored := RestoredOriginal(cfg, w);
    assert restored.children == original;
    FilterNarrow(original, NotMessage, NotMessage);
  }

  /** The error path after a request in replace mode: whatever was shown
      before, the container shows its captured original again, without
      messages, followed by the error alone. */
  lemma FetchThenErrorRestores(cfg: Config, v: ContainerView, message: string)
    requires IsReplaceMode(cfg) && (HasCapture(v) || v.children != [])
    ensures var fetched := Stepped(cfg, Stepped(cfg, v, Prepare), Announce(Translating, Progress));
            var failed := Stepped(cfg, fetched, Revert(message, Failure));
            var original := if HasCapture(v) then v.original.value else v.children;
            && failed.children == Filter(original, NotMessage) + [Message(Failure, message)]
            && !failed.replaced
  {
    var fetched := Stepped(cfg, Stepped(cfg, v, Prepare), Announce(Translating, Progress));
    var original := if HasCapture(v) then v.original.value else v.children;
    FetchCaptures(cfg, v);
    RevertAfterCapture(cfg, fetched, original, message, Failure);
  }

  /** The error path after a request in append mode: the earlier block
      and every message are gone, the other children keep their order, and
      the error alone is shown after them; the capture and the replaced
      class are untouched. */
  lemma FetchThenErrorAppend(cfg: Config, v: ContainerView, message: string)
    requires !IsReplaceMode(cfg)
    ensures var fetched := Stepped(cfg, Stepped(cfg, v, Prepare), Announce(Translating, Progress));
            var failed := Stepped(cfg, fetched, Revert(message, Failure));
            && failed.children == Filter(Filter(v.children, NotBlock), NotMessage) + [Message(Failure, message)]
            && failed.original == v.original && failed.replaced == v.replaced
  {
    var kept := Filter(Filter(v.children, NotBlock), NotMessage);
    var progress, failure := Message(Progress, Translating), Message(Failure, message);
    FilterNarrow(Filter(v.children, NotBlock), NotMessage, NotMessage);
    assert Filter(kept, NotMessage) == kept;
    var fetched := Stepped(cfg, Stepped(cfg, v, Prepare), Announce(Translating, Progress));
    assert fetched.children == kept + [progress];
    assert [progress][..0] == [];
    FilterAppend(kept, [progress], NotMessage);
    assert Filter([progress], NotMessage) == [];
    assert Filter(fetched.children, NotMessage) == kept;
    assert Stepped(cfg, fetched, Revert(message, Failure)).children == kept + [failure];
  }

  /** A second render while the first request is under way starts no
      second request. */
  method TwoRendersOneRequest(cfg: Config) returns (first: bool, second: bool)
    requires cfg.mode == "auto_append"
    ensures first && !second
  {
    var o := new Orchestrator(cfg);
    var c := new Container([Other("<p>Hallo</p>")]);
    first := o.ProcessRendered(Some(7), [c], [], []);
    second := o.ProcessRendered(Some(7), [c], [], []);
  }
}
