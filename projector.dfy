/** What the browser side does to the page (auto_translate.js:12-148,
    347-465): an article's content container and its title elements, the
    translation shown in them, the captured original, and the status
    message.

    A container is the sequence of its children, each of a kind the code
    tells apart by class or data attribute; its `innerHTML` is that
    sequence, so capturing and restoring the markup copies the sequence.
    The dataset sentinels are Option values read with JavaScript
    truthiness: an empty string is as good as none. */
module Projector {
  import opened Common
  import opened Settings

  datatype MessageKind = Progress | Info | Failure

  datatype Node =
    | Message(kind: MessageKind, text: string)              // [data-auto-translate-message]
    | Block(lang: Option<string>, tooltip: string, html: string) // [data-auto-translate-block]
    | Wrapper(tooltip: string, html: string)                   // the replace-mode wrapper
    | Attachment(markup: string)                             // attachments / enclosures
    | Other(markup: string)                                  // the article's own content

  function NotMessage(n: Node): bool { !n.Message? }
  function NotBlock(n: Node): bool { !n.Block? }
  function IsAttachment(n: Node): bool { n.Attachment? }

  // ---------------------------------------------------------------------
  // Display modes and labels
  // ---------------------------------------------------------------------

  /** isReplaceMode (auto_translate.js:12-14): a missing display mode means
      "append". */
  function IsReplaceMode(cfg: Config): (r: bool)
    ensures r <==> cfg.displayMode == "replace"
  {
    (if cfg.displayMode == "" then "append" else cfg.displayMode) == "replace"
  }

  /** isTitleReplaceMode (auto_translate.js:16-28): only when titles are
      translated at all. */
  function IsTitleReplaceMode(cfg: Config): (r: bool)
    ensures r ==> cfg.translateTitles
    ensures r <==> cfg.translateTitles && cfg.titleDisplayMode == "replace"
  {
    cfg.translateTitles && (if cfg.titleDisplayMode == "" then "append" else cfg.titleDisplayMode) == "replace"
  }

  const Arrow: string := " \U{2192} "
  const GenericLabel: string := "Translated content"

  /** A language code in capitals, or "" for a falsy value. */
  function UpperOrEmpty(v: Option<string>): (r: string)
    ensures r == "" <==> !JsTruthy(v)
  {
    if JsTruthy(v) then Upper(v.value) else ""
  }

  /** The tooltip of the body's badge or summary icon
      (auto_translate.js:377-393, 423-436). */
  function BodyLabel(target: Option<string>, detected: Option<string>): (r: string)
    ensures r != ""
    ensures !JsTruthy(detected) && JsTruthy(target) ==> r == Upper(target.value)
  {
    var t, d := UpperOrEmpty(target), UpperOrEmpty(detected);
    if d != "" && d != t then d + Arrow + t
    else if t != "" then t
    else GenericLabel
  }

  /** The title's tooltip (auto_translate.js:72-76): empty without a target. */
  function TitleLabel(target: Option<string>, detected: Option<string>): (r: string)
    ensures r == "" <==> !JsTruthy(target)
    ensures !JsTruthy(detected) && JsTruthy(target) ==> r == Upper(target.value)
  {
    var t, d := UpperOrEmpty(target), UpperOrEmpty(detected);
    if t != "" then (if d != "" && d != t then d + Arrow + t else t) else ""
  }

  /** The two tooltip rules agree whenever there is a target; without one the
      title gets no tooltip while the body falls back to a generic one, or
      to an arrow pointing at nothing when a language was detected. */
  lemma LabelsAgree(target: Option<string>, detected: Option<string>)
    ensures JsTruthy(target) ==> BodyLabel(target, detected) == TitleLabel(target, detected)
    ensures JsTruthy(target) ==>
              var b, t := BodyLabel(target, detected), Upper(target.value);
              |t| <= |b| && b[|b| - |t|..] == t
    ensures !JsTruthy(target) ==> TitleLabel(target, detected) == ""
    ensures !JsTruthy(target) && !JsTruthy(detected) ==> BodyLabel(target, detected) == GenericLabel
    ensures !JsTruthy(target) && JsTruthy(detected) ==>
              BodyLabel(target, detected) == Upper(detected.value) + Arrow
  {
  }

  /** The arrow appears exactly when a detected language differs from the
      target, compared in capitals. */
  lemma ArrowIffLanguagesDiffer(target: Option<string>, detected: Option<string>)
    requires JsTruthy(target)
    ensures BodyLabel(target, detected) != Upper(target.value) <==>
              JsTruthy(detected) && Upper(detected.value) != Upper(target.value)
  {
    var t := Upper(target.value);
    if JsTruthy(detected) && Upper(detected.value) != t {
      var d := Upper(detected.value);
      assert |d + Arrow + t| > |t|;
    }
  }

  // ---------------------------------------------------------------------
  // The content container
  // ---------------------------------------------------------------------

  /** A container: its children, the captured `autoTranslateOriginal`, and
      whether it carries the `auto-translate-replaced` class. */
  datatype ContainerView = ContainerView(children: seq<Node>, original: Option<seq<Node>>, replaced: bool)

  /** The sentinel is set and truthy (a captured empty markup is not). */
  predicate HasCapture(v: ContainerView) {
    v.original.Some? && v.original.value != []
  }

  /** ensureOriginal (auto_translate.js:130-136): in replace mode, capture
      the current children unless a capture exists. */
  function EnsuredOriginal(cfg: Config, v: ContainerView): (r: ContainerView)
    ensures r.children == v.children && r.replaced == v.replaced
    ensures !IsReplaceMode(cfg) || HasCapture(v) ==> r == v
    ensures IsReplaceMode(cfg) && !HasCapture(v) ==> r.original == Some(v.children)
  {
    if IsReplaceMode(cfg) && !HasCapture(v) then v.(original := Some(v.children)) else v
  }

  /** restoreOriginal (auto_translate.js:138-148): in replace mode, put the
      capture back and drop the replaced class; the capture is kept. */
  function RestoredOriginal(cfg: Config, v: ContainerView): (r: ContainerView)
    ensures !IsReplaceMode(cfg) ==> r == v
    ensures IsReplaceMode(cfg) ==> !r.replaced && r.original == v.original
    ensures IsReplaceMode(cfg) && HasCapture(v) ==> r.children == v.original.value
    ensures !HasCapture(v) ==> r.children == v.children
  {
    if !IsReplaceMode(cfg) then v
    else if HasCapture(v) then v.(children := v.original.value, replaced := false)
    else v.(replaced := false)
  }

  /** removeMessage (auto_translate.js:463-465). */
  function WithoutMessages(v: ContainerView): (r: ContainerView)
    ensures r.original == v.original && r.replaced == v.replaced && |r.children| <= |v.children|
  {
    v.(children := Filter(v.children, NotMessage))
  }

  /** The removal of every translation block (auto_translate.js:261, 352). */
  function WithoutBlocks(v: ContainerView): (r: ContainerView)
    ensures r.original == v.original && r.replaced == v.replaced && |r.children| <= |v.children|
  {
    v.(children := Filter(v.children, NotBlock))
  }

  /** showMessage (auto_translate.js:450-461). */
  function ShownMessage(v: ContainerView, text: string, kind: MessageKind): (r: ContainerView)
    ensures r.original == v.original && r.replaced == v.replaced
    ensures |r.children| > 0 && r.children[|r.children| - 1] == Message(kind, text)
  {
    v.(children := WithoutMessages(v).children + [Message(kind, text)])
  }

  /** renderTranslation (auto_translate.js:347-448). Messages and blocks go
      first; in replace mode the original is captured from what is left,
      and the children become the wrapper followed by the attachments among
      what is left; in append mode a block is added at the end. */
  function Rendered(cfg: Config, v: ContainerView, html: string, target: Option<string>, detected: Option<string>)
    : ContainerView
  {
    var cleared := WithoutBlocks(WithoutMessages(v));
    if IsReplaceMode(cfg) then
      EnsuredOriginal(cfg, cleared).(
        children := [Wrapper(BodyLabel(target, detected), html)] + Filter(cleared.children, IsAttachment),
        replaced := true)
    else
      cleared.(children := cleared.children + [Block(OrNull(target), BodyLabel(target, detected), html)])
  }

  /** After showMessage the container holds exactly one message, the new
      one, last; the other children are kept in order and the sentinels
      are untouched. */
  lemma ShowMessageLeavesOne(v: ContainerView, text: string, kind: MessageKind)
    ensures var r := ShownMessage(v, text, kind);
            && r.original == v.original && r.replaced == v.replaced
            && |r.children| > 0 && r.children[|r.children| - 1] == Message(kind, text)
            && (forall j :: 0 <= j < |r.children| - 1 ==> !r.children[j].Message?)
            && r.children[..|r.children| - 1] == Filter(v.children, NotMessage)
  {
    var w := Filter(v.children, NotMessage);
    var r := ShownMessage(v, text, kind);
    FilterMembers(v.children, NotMessage);
    assert r.children == w + [Message(kind, text)];
    assert r.children[..|w|] == w;
    forall j | 0 <= j < |r.children| - 1
      ensures !r.children[j].Message?
    {
      assert r.children[j] == w[j];
    }
  }

  /** Once messages and then blocks are filtered out, neither is left. */
  lemma ClearedHoldsNeither(children: seq<Node>, cleared: seq<Node>)
    requires cleared == Filter(Filter(children, NotMessage), NotBlock)
    ensures forall j :: 0 <= j < |cleared| ==> !cleared[j].Message? && !cleared[j].Block?
  {
    var noMsg := Filter(children, NotMessage);
    FilterMembers(noMsg, NotBlock);
    FilterMembers(children, NotMessage);
    forall j | 0 <= j < |cleared|
      ensures !cleared[j].Message? && !cleared[j].Block?
    {
      var k :| 0 <= k < |noMsg| && noMsg[k] == cleared[j];
    }
  }

  /** renderTranslation in append mode: messages and earlier blocks are
      gone, the other children keep their order, and exactly one block,
      the new one, comes last. */
  lemma AppendShape(cfg: Config, v: ContainerView, html: string, target: Option<string>, detected: Option<string>)
    requires !IsReplaceMode(cfg)
    ensures var r := Rendered(cfg, v, html, target, detected);
            && r.original == v.original && r.replaced == v.replaced
            && |r.children| > 0
            && r.children[|r.children| - 1] == Block(OrNull(target), BodyLabel(target, detected), html)
            && r.children[..|r.children| - 1] == Filter(Filter(v.children, NotMessage), NotBlock)
            && (forall j :: 0 <= j < |r.children| ==> !r.children[j].Message?)
            && (forall j :: 0 <= j < |r.children| - 1 ==> !r.children[j].Block?)
  {
    var cleared := Filter(Filter(v.children, NotMessage), NotBlock);
    var b := Block(OrNull(target), BodyLabel(target, detected), html);
    var r := Rendered(cfg, v, html, target, detected);
    assert r.children == cleared + [b];
    ClearedHoldsNeither(v.children, cleared);
    forall j | 0 <= j < |r.children|
      ensures !r.children[j].Message?
      ensures j < |r.children| - 1 ==> !r.children[j].Block?
    {
      if j < |cleared| {
        assert r.children[j] == cleared[j];
      }
    }
    assert r.children[..|cleared|] == cleared;
  }

  /** renderTranslation in replace mode: the children become the wrapper
      followed by the container's attachments in their original order,
      the replaced class is set, and the original is captured unless a
      capture exists. */
  lemma ReplaceShape(cfg: Config, v: ContainerView, html: string, target: Option<string>, detected: Option<string>)
    requires IsReplaceMode(cfg)
    ensures var r := Rendered(cfg, v, html, target, detected);
            && r.replaced
            && r.children == [Wrapper(BodyLabel(target, detected), html)] + Filter(v.children, IsAttachment)
            && (HasCapture(v) ==> r.original == v.original)
            && (!HasCapture(v) ==> r.original == Some(Filter(Filter(v.children, NotMessage), NotBlock)))
  {
    AttachmentsSurviveClearing(v.children);
  }

  /** Removing messages and blocks first does not change which attachments
      replace mode keeps, nor their order. */
  lemma AttachmentsSurviveClearing(children: seq<Node>)
    ensures Filter(Filter(Filter(children, NotMessage), NotBlock), IsAttachment) == Filter(children, IsAttachment)
  {
    FilterNarrow(Filter(children, NotMessage), NotBlock, IsAttachment);
    FilterNarrow(children, NotMessage, IsAttachment);
  }

  /** Rendering the same translation twice gives what rendering it once
      gives: the first block or wrapper is replaced, not repeated. In
      replace mode this needs the first render to leave a truthy capture. */
  lemma RenderIdempotent(cfg: Config, v: ContainerView, html: string, target: Option<string>, detected: Option<string>)
    requires IsReplaceMode(cfg) ==> HasCapture(Rendered(cfg, v, html, target, detected))
    ensures var once := Rendered(cfg, v, html, target, detected);
            Rendered(cfg, once, html, target, detected) == once
  {
    if IsReplaceMode(cfg) {
      ReplaceIdempotent(cfg, v, html, target, detected);
    } else {
      AppendIdempotent(cfg, v, html, target, detected);
    }
  }

  lemma ReplaceIdempotent(cfg: Config, v: ContainerView, html: string, target: Option<string>, detected: Option<string>)
    requires IsReplaceMode(cfg) && HasCapture(Rendered(cfg, v, html, target, detected))
    ensures var once := Rendered(cfg, v, html, target, detected);
            Rendered(cfg, once, html, target, detected) == once
  {
    var once := Rendered(cfg, v, html, target, detected);
    var atts := Filter(v.children, IsAttachment);
    var w := Wrapper(BodyLabel(target, detected), html);
    ReplaceShape(cfg, v, html, target, detected);
    ReplaceShape(cfg, once, html, target, detected);
    FilterAppend([w], atts, IsAttachment);
    FilterMembers(v.children, IsAttachment);
    FilterKeepsAll(atts, IsAttachment);
    assert Filter([w], IsAttachment) == [];
    assert Filter(once.children, IsAttachment) == atts;
  }

  lemma AppendIdempotent(cfg: Config, v: ContainerView, html: string, target: Option<string>, detected: Option<string>)
    requires !IsReplaceMode(cfg)
    ensures var once := Rendered(cfg, v, html, target, detected);
            Rendered(cfg, once, html, target, detected) == once
  {
    var once := Rendered(cfg, v, html, target, detected);
    AppendShape(cfg, v, html, target, detected);
    var n := |once.children| - 1;
    assert once.children == once.children[..n] + [once.children[n]];
    ClearingDropsOnlyLastBlock(once.children[..n], once.children[n]);
  }

  /** Children free of messages and blocks, followed by one block, are
      cleared back to themselves. */
  lemma ClearingDropsOnlyLastBlock(cleared: seq<Node>, b: Node)
    requires b.Block?
    requires forall j :: 0 <= j < |cleared| ==> !cleared[j].Message? && !cleared[j].Block?
    ensures Filter(Filter(cleared + [b], NotMessage), NotBlock) == cleared
  {
    assert [b][..0] == [];
    FilterAppend(cleared, [b], NotMessage);
    FilterKeepsAll(cleared, NotMessage);
    assert Filter([b], NotMessage) == [b];
    var kept := Filter(cleared + [b], NotMessage);
    assert kept == cleared + [b];
    FilterAppend(cleared, [b], NotBlock);
    FilterKeepsAll(cleared, NotBlock);
    assert Filter([b], NotBlock) == [];
    assert Filter(kept, NotBlock) == cleared + [];
  }

  /** An empty container in replace mode captures "" as its original, which
      counts as no capture: a second render captures the translation
      itself as the original. */
  lemma EmptyContainerCapturesTranslation(cfg: Config, html: string, target: Option<string>)
    requires IsReplaceMode(cfg)
    ensures var once := Rendered(cfg, ContainerView([], None, false), html, target, None);
            && once.original == Some([])
            && Rendered(cfg, once, html, target, None).original == Some([Wrapper(BodyLabel(target, None), html)])
  {
    var once := Rendered(cfg, ContainerView([], None, false), html, target, None);
    var w := Wrapper(BodyLabel(target, None), html);
    assert once.children == [w];
    assert Filter([w], NotMessage) == [w];
    assert Filter([w], NotBlock) == [w];
  }

  /** Replace then restore gives back the content the first render
      captured: the children as they were without messages and blocks. */
  lemma ReplaceThenRestore(cfg: Config, v: ContainerView, html: string, target: Option<string>, detected: Option<string>)
    requires IsReplaceMode(cfg) && !HasCapture(v)
    requires WithoutBlocks(WithoutMessages(v)).children != []
    ensures var r := RestoredOriginal(cfg, Rendered(cfg, v, html, target, detected));
            r.children == WithoutBlocks(WithoutMessages(v)).children && !r.replaced
  {
  }

  /** The error path (auto_translate.js:337-341) on a container whose
      original was captured: its content comes back, without messages,
      followed by the error message alone. */
  lemma ErrorRestoresOriginal(cfg: Config, v: ContainerView, message: string)
    requires IsReplaceMode(cfg) && HasCapture(v)
    ensures var r := ShownMessage(WithoutMessages(RestoredOriginal(cfg, v)), message, Failure);
            && r.children == Filter(v.original.value, NotMessage) + [Message(Failure, message)]
            && !r.replaced && r.original == v.original
  {
    var o := v.original.value;
    FilterNarrow(o, NotMessage, NotMessage);
  }

  /** A capture, once made, survives every later ensureOriginal whatever the
      children have become. */
  lemma CaptureIsKept(cfg: Config, v: ContainerView, children: seq<Node>)
    requires HasCapture(v)
    ensures EnsuredOriginal(cfg, v.(children := children)).original == v.original
  {
  }

  // ---------------------------------------------------------------------
  // The filter as the browser runs it: one child at a time
  // ---------------------------------------------------------------------

  /** The children for which keep holds, in order (the effect of removing
      each matched element in a forEach, or of Array.from(…).filter). */
  method FilterNodes(nodes: seq<Node>, keep: Node -> bool) returns (kept: seq<Node>)
    ensures kept == Filter(nodes, keep)
  {
    kept := [];
    var i := 0;
    while i < |nodes|
      invariant 0 <= i <= |nodes|
      invariant kept == Filter(nodes[..i], keep)
    {
      assert nodes[..i + 1][..i] == nodes[..i];
      if keep(nodes[i]) {
        kept := kept + [nodes[i]];
      }
      i := i + 1;
    }
    assert nodes[..i] == nodes;
  }

  class Container {
    var children: seq<Node>
    var original: Option<seq<Node>>
    var replaced: bool

    function View(): ContainerView
      reads this
    {
      ContainerView(children, original, replaced)
    }

    constructor (children: seq<Node>)
      ensures View() == ContainerView(children, None, false)
    {
      this.children := children;
      original := None;
      replaced := false;
    }

    method EnsureOriginal(cfg: Config)
      modifies this
      ensures View() == EnsuredOriginal(cfg, old(View()))
    {
      if !IsReplaceMode(cfg) {
        return;
      }
      if !(original.Some? && original.value != []) {
        original := Some(children);
      }
    }

    method RestoreOriginal(cfg: Config)
      modifies this
      ensures View() == RestoredOriginal(cfg, old(View()))
    {
      if !IsReplaceMode(cfg) {
        return;
      }
      if original.Some? && original.value != [] {
        children := original.value;
      }
      replaced := false;
    }

    method RemoveMessage()
      modifies this
      ensures View() == WithoutMessages(old(View()))
    {
      children := FilterNodes(children, NotMessage);
    }

    method RemoveBlocks()
      modifies this
      ensures View() == WithoutBlocks(old(View()))
    {
      children := FilterNodes(children, NotBlock);
    }

    method ShowMessage(text: string, kind: MessageKind)
      modifies this
      ensures View() == ShownMessage(old(View()), text, kind)
    {
      RemoveMessage();
      children := children + [Message(kind, text)];
    }

    method RenderTranslation(cfg: Config, html: string, target: Option<string>, detected: Option<string>)
      modifies this
      ensures View() == Rendered(cfg, old(View()), html, target, detected)
    {
      RemoveMessage();
      RemoveBlocks();
      ghost var cleared := View();
      assert cleared == WithoutBlocks(WithoutMessages(old(View())));
      var tooltip := BodyLabel(target, detected);
      if IsReplaceMode(cfg) {
        EnsureOriginal(cfg);
        assert View() == EnsuredOriginal(cfg, cleared) && children == cleared.children;
        replaced := true;
        var preserved := FilterNodes(children, IsAttachment);
        children := [Wrapper(tooltip, html)] + preserved;
        return;
      }
      children := children + [Block(OrNull(target), tooltip, html)];
    }
  }

  // ---------------------------------------------------------------------
  // Title elements
  // ---------------------------------------------------------------------

  /** The supplement element append mode inserts after a title. */
  datatype Supplement = Supplement(tooltip: string, text: string)

  /** A title element: its own text, whether the inline "translate" icon
      is prepended, its title attribute, the two dataset sentinels, the
      replaced class, and the supplements that follow it. */
  datatype TitleView = TitleView(
    text: string, icon: bool, attr: Option<string>,
    origText: Option<string>, origAttr: Option<string>,
    replaced: bool, supplements: seq<Supplement>)

  /** textContent: the icon's ligature text comes first. */
  function TextContent(v: TitleView): string {
    (if v.icon then "translate" else "") + v.text
  }

  /** captureTitleOriginals, per title (auto_translate.js:31-36). */
  function TitleCaptured(v: TitleView): (r: TitleView)
    ensures JsTruthy(v.origText) ==> r == v
    ensures !JsTruthy(v.origText) ==> r == v.(origText := Some(TextContent(v)), origAttr := Some(v.attr.GetOr("")))
  {
    if !JsTruthy(v.origText) then v.(origText := Some(TextContent(v)), origAttr := Some(v.attr.GetOr(""))) else v
  }

  /** restoreTitles, per title (auto_translate.js:39-60): supplements go,
      text and attribute come back from the sentinels, which stay. */
  function TitleRestored(v: TitleView): (r: TitleView)
    ensures r.supplements == [] && !r.replaced
    ensures r.origText == v.origText && r.origAttr == v.origAttr
    ensures v.origText.Some? ==> TextContent(r) == v.origText.value
    ensures v.origText.None? ==> TextContent(r) == TextContent(v)
    ensures v.origAttr.Some? ==> r.attr == OrNull(v.origAttr)
    ensures v.origAttr.None? ==> r.attr == v.attr
  {
    var a := v.(supplements := [], replaced := false);
    var b := if v.origText.Some? then a.(text := v.origText.value, icon := false) else a;
    if v.origAttr.Some? then b.(attr := OrNull(v.origAttr)) else b
  }

  /** The per-title part of renderTitle once originals are captured
      (auto_translate.js:78-126). */
  function TitleShown(cfg: Config, v: TitleView, translated: string, tooltip: string): (r: TitleView)
    ensures r.origText == (if JsTruthy(v.origText) then v.origText else Some(TextContent(v)))
    ensures r.origAttr == (if JsTruthy(v.origAttr) then v.origAttr else Some(v.attr.GetOr("")))
    ensures IsTitleReplaceMode(cfg) ==>
              && TextContent(r) == "translate" + translated && r.replaced && r.supplements == v.supplements
              && r.attr == (if tooltip != "" then Some(tooltip) else OrNull(r.origAttr))
    ensures !IsTitleReplaceMode(cfg) ==>
              && TextContent(r) == TextContent(v) && r.attr == v.attr && r.replaced == v.replaced
              && r.supplements == [Supplement(tooltip, translated)] + v.supplements
  {
    var a := if !JsTruthy(v.origText) then v.(origText := Some(TextContent(v))) else v;
    var b := if !JsTruthy(a.origAttr) then a.(origAttr := Some(a.attr.GetOr(""))) else a;
    if IsTitleReplaceMode(cfg) then
      b.(text := translated, icon := true, replaced := true,
         attr := if tooltip != "" then Some(tooltip) else OrNull(b.origAttr))
    else
      b.(supplements := [Supplement(tooltip, translated)] + b.supplements)
  }

  /** renderTitle, per title (auto_translate.js:62-128). */
  function TitleRendered(cfg: Config, v: TitleView, translated: Option<string>, target: Option<string>, detected: Option<string>)
    : (r: TitleView)
    ensures !cfg.translateTitles || !JsTruthy(translated) ==> r == TitleRestored(v)
    ensures cfg.translateTitles && JsTruthy(translated) ==>
              r == TitleShown(cfg, TitleCaptured(TitleRestored(v)), translated.value, TitleLabel(target, detected))
  {
    var restored := TitleRestored(v);
    if !cfg.translateTitles || !JsTruthy(translated) then restored
    else TitleShown(cfg, TitleCaptured(restored), translated.value, TitleLabel(target, detected))
  }

  /** Capturing twice captures once: the second capture keeps the first
      when the first found some text. */
  lemma TitleCaptureOnce(v: TitleView)
    requires TextContent(v) != "" || JsTruthy(v.origText)
    ensures TitleCaptured(TitleCaptured(v)) == TitleCaptured(v)
  {
  }

  /** A title shown in either mode and then restored shows its original
      text and title attribute again, when it had text and a non-empty or
      missing attribute before the first capture. */
  lemma TitleRoundTrip(cfg: Config, v: TitleView, translated: string, target: Option<string>, detected: Option<string>)
    requires v.origText.None? && v.origAttr.None? && !v.icon && v.text != ""
    requires v.attr.None? || v.attr.value != ""
    ensures var shown := TitleRendered(cfg, TitleCaptured(v), Some(translated), target, detected);
            var back := TitleRestored(shown);
            TextContent(back) == TextContent(v) && back.attr == v.attr && back.supplements == [] && !back.replaced
  {
  }

  /** A title attribute that is present but empty does not survive: the
      restore removes it. */
  lemma EmptyTitleAttributeLost(v: TitleView)
    requires v.origText.None? && v.origAttr.None? && v.attr == Some("")
    ensures TitleRestored(TitleCaptured(v)).attr.None?
  {
  }

  class TitleElement {
    var text: string
    var icon: bool
    var attr: Option<string>
    var origText: Option<string>
    var origAttr: Option<string>
    var replaced: bool
    var supplements: seq<Supplement>

    function View(): TitleView
      reads this
    {
      TitleView(text, icon, attr, origText, origAttr, replaced, supplements)
    }

    constructor (text: string, attr: Option<string>)
      ensures View() == TitleView(text, false, attr, None, None, false, [])
    {
      this.text := text;
      icon := false;
      this.attr := attr;
      origText := None;
      origAttr := None;
      replaced := false;
      supplements := [];
    }

    method Capture()
      modifies this
      ensures View() == TitleCaptured(old(View()))
    {
      if !(origText.Some? && origText.value != "") {
        origText := Some((if icon then "translate" else "") + text);
        origAttr := Some(attr.GetOr(""));
      }
    }

    method Restore()
      modifies this
      ensures View() == TitleRestored(old(View()))
    {
      supplements := [];
      if origText.Some? {
        text := origText.value;
        icon := false;
      }
      if origAttr.Some? {
        attr := if origAttr.value != "" then origAttr else None;
      }
      replaced := false;
    }

    method Show(cfg: Config, translated: string, tooltip: string)
      modifies this
      ensures View() == TitleShown(cfg, old(View()), translated, tooltip)
    {
      ghost var v := View();
      if !(origText.Some? && origText.value != "") {
        origText := Some((if icon then "translate" else "") + text);
      }
      ghost var a := View();
      assert a == if !JsTruthy(v.origText) then v.(origText := Some(TextContent(v))) else v;
      if !(origAttr.Some? && origAttr.value != "") {
        origAttr := Some(attr.GetOr(""));
      }
      assert View() == if !JsTruthy(a.origAttr) then a.(origAttr := Some(a.attr.GetOr(""))) else a;
      if IsTitleReplaceMode(cfg) {
        text := translated;
        icon := true;
        if tooltip != "" {
          attr := Some(tooltip);
        } else {
          attr := if origAttr.Some? && origAttr.value != "" then origAttr else None;
        }
        replaced := true;
      } else {
        supplements := [Supplement(tooltip, translated)] + supplements;
      }
    }
  }
}
