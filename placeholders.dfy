/** The placeholder codec of the translation gateway (init.php:286-302 and
    init.php:374-384). Before the article body goes to the provider every
    `<img …>` tag is swapped for an empty marker span carrying a running
    index, and the tag is kept at that index; after translation each marker
    the provider returned is swapped back by its index.

    Markup is a sequence of tokens rather than a string searched by PCRE:
    `Img` is a match of `<img\b[^>]*>`, `Marker` a span the restore pattern
    recognises (its index already read from the digits), `Text` everything
    between. `Render` gives back the string a token sequence stands for. */
module Placeholders {
  import opened Common
  import opened ControlMarkers

  datatype Token = Text(s: string) | Img(tag: string) | Marker(index: nat)

  // ---------------------------------------------------------------------
  // Marker text: the index is written in decimal and read back with (int)
  // ---------------------------------------------------------------------

  predicate IsDigits(s: string) {
    forall i :: 0 <= i < |s| ==> '0' <= s[i] <= '9'
  }

  function DigitChar(d: nat): char
    requires d < 10
  {
    ('0' as int + d) as char
  }

  /** The decimal text PHP produces when it concatenates an index. */
  function NatToString(n: nat): (r: string)
    ensures r != [] && IsDigits(r)
    decreases n
  {
    if n < 10 then [DigitChar(n)] else NatToString(n / 10) + [DigitChar(n % 10)]
  }

  /** (int) applied to the `\d+` capture of the restore pattern. */
  function ParseDigits(s: string): nat
    requires IsDigits(s)
    decreases |s|
  {
    if s == [] then 0 else 10 * ParseDigits(s[..|s| - 1]) + (s[|s| - 1] as int - '0' as int)
  }

  /** The index written into a marker is the index read back from it. */
  lemma {:induction false} IndexRoundTrip(n: nat)
    ensures ParseDigits(NatToString(n)) == n
    decreases n
  {
    if n >= 10 {
      var s := NatToString(n);
      assert s[..|s| - 1] == NatToString(n / 10);
      IndexRoundTrip(n / 10);
    }
  }

  // The opening of the marker span, written in three pieces: the verifier
  // reasons about short string literals character by character.
  const MarkerOpen: string :=
    "<span class=\"auto-translate-img-" + "placeholder\" data-auto-" + "translate-img-placeholder=\""
  const MarkerClose: string := "\"></span>"

  /** The span protect() writes in place of an image (init.php:293-295). */
  function MarkerHtml(index: nat): (r: string)
    ensures r != [] && r[0] == '<' && r[|r| - 1] == '>'
  {
    assert MarkerOpen[0] == '<';
    MarkerOpen + NatToString(index) + MarkerClose
  }

  function RenderToken(t: Token): string {
    match t
    case Text(s) => s
    case Img(tag) => tag
    case Marker(i) => MarkerHtml(i)
  }

  function Render(ts: seq<Token>): string
    decreases |ts|
  {
    if ts == [] then "" else RenderToken(ts[0]) + Render(ts[1..])
  }

  // ---------------------------------------------------------------------
  // protect
  // ---------------------------------------------------------------------

  /** The image tags of ts, in source order. */
  function Tags(ts: seq<Token>): seq<string>
    decreases |ts|
  {
    if ts == [] then []
    else Tags(ts[..|ts| - 1]) + (if ts[|ts| - 1].Img? then [ts[|ts| - 1].tag] else [])
  }

  /** The markup protect() hands to the provider: the image that has n
      images before it becomes marker n, everything else stays. */
  function Protected(ts: seq<Token>): (r: seq<Token>)
    ensures |r| == |ts|
    decreases |ts|
  {
    if ts == [] then []
    else
      var init, t := ts[..|ts| - 1], ts[|ts| - 1];
      Protected(init) + [if t.Img? then Marker(|Tags(init)|) else t]
  }

  /** The placeholder array protect() builds: each image tag stored under
      the array's size at the time it is met (init.php:290-291). */
  function PlaceholderMap(ts: seq<Token>): (r: map<nat, string>)
    ensures |r| <= |ts|
    decreases |ts|
  {
    if ts == [] then map[]
    else
      var m, t := PlaceholderMap(ts[..|ts| - 1]), ts[|ts| - 1];
      if t.Img? then m[|m| := t.tag] else m
  }

  /** The placeholder array is indexed 0 .. n-1 by the n image tags, in
      source order. */
  lemma {:induction false} PlaceholderMapIndexes(ts: seq<Token>)
    ensures |PlaceholderMap(ts)| == |Tags(ts)|
    ensures forall k: nat :: k in PlaceholderMap(ts) <==> k < |Tags(ts)|
    ensures forall k: nat :: k < |Tags(ts)| ==> PlaceholderMap(ts)[k] == Tags(ts)[k]
    decreases |ts|
  {
    if ts != [] {
      var init, t := ts[..|ts| - 1], ts[|ts| - 1];
      PlaceholderMapIndexes(init);
      var m := PlaceholderMap(init);
      if t.Img? {
        assert Tags(ts) == Tags(init) + [t.tag];
        assert PlaceholderMap(ts) == m[|m| := t.tag];
        assert |m| !in m;
      } else {
        assert Tags(ts) == Tags(init);
        assert PlaceholderMap(ts) == m;
      }
    }
  }

  /** The tags of a prefix are a prefix of the tags. */
  lemma {:induction false} TagsOfPrefix(ts: seq<Token>, n: nat)
    requires n <= |ts|
    ensures |Tags(ts[..n])| <= |Tags(ts)|
    ensures Tags(ts)[..|Tags(ts[..n])|] == Tags(ts[..n])
    decreases |ts|
  {
    if n < |ts| {
      var init := ts[..|ts| - 1];
      assert init[..n] == ts[..n];
      TagsOfPrefix(init, n);
    } else {
      assert ts[..n] == ts;
    }
  }

  /** The image at position j is the k-th tag, k being the number of images
      before it. */
  lemma TagsAt(ts: seq<Token>, j: nat)
    requires j < |ts| && ts[j].Img?
    ensures |Tags(ts[..j])| < |Tags(ts)|
    ensures Tags(ts)[|Tags(ts[..j])|] == ts[j].tag
  {
    var pre := ts[..j + 1];
    assert pre[..|pre| - 1] == ts[..j];
    TagsOfPrefix(ts, j + 1);
  }

  /** Position j of the protected markup. */
  lemma {:induction false} ProtectedAt(ts: seq<Token>, j: nat)
    requires j < |ts|
    ensures Protected(ts)[j] == if ts[j].Img? then Marker(|Tags(ts[..j])|) else ts[j]
    decreases |ts|
  {
    var init := ts[..|ts| - 1];
    if j == |ts| - 1 {
      assert ts[..j] == init;
    } else {
      assert init[..j] == ts[..j];
      ProtectedAt(init, j);
    }
  }

  /** protect (init.php:286-298): the closure appends each matched tag to the
      placeholder array, using the array's size as the next index. */
  method Protect(content: seq<Token>) returns (protected: seq<Token>, placeholders: map<nat, string>)
    ensures protected == Protected(content) && placeholders == PlaceholderMap(content)
    ensures |protected| == |content| && |placeholders| == |Tags(content)|
    ensures forall k: nat :: k in placeholders <==> k < |Tags(content)|
    ensures forall j :: 0 <= j < |content| && !content[j].Img? ==> protected[j] == content[j]
    ensures forall j :: 0 <= j < |content| && content[j].Img? ==>
              var k := |Tags(content[..j])|;
              protected[j] == Marker(k) && k in placeholders && placeholders[k] == content[j].tag
  {
    protected, placeholders := [], map[];
    var i := 0;
    while i < |content|
      invariant 0 <= i <= |content|
      invariant protected == Protected(content[..i])
      invariant placeholders == PlaceholderMap(content[..i])
    {
      var t := content[i];
      assert content[..i + 1][..i] == content[..i];
      PlaceholderMapIndexes(content[..i]);
      if t.Img? {
        var index := |placeholders|;
        placeholders := placeholders[index := t.tag];
        protected := protected + [Marker(index)];
      } else {
        protected := protected + [t];
      }
      i := i + 1;
    }
    assert content[..i] == content;
    PlaceholderMapIndexes(content);
    forall j | 0 <= j < |content|
      ensures !content[j].Img? ==> protected[j] == content[j]
      ensures content[j].Img? ==>
                var k := |Tags(content[..j])|;
                protected[j] == Marker(k) && k in placeholders && placeholders[k] == content[j].tag
    {
      ProtectedAt(content, j);
      if content[j].Img? {
        TagsAt(content, j);
      }
    }
  }

  // ---------------------------------------------------------------------
  // restore
  // ---------------------------------------------------------------------

  function RestoreToken(t: Token, placeholders: map<nat, string>): Token {
    if t.Marker? && t.index in placeholders then Img(placeholders[t.index]) else t
  }

  /** restore (init.php:374-384): runs only when the placeholder array is
      non-empty; each marker becomes the tag stored at its index, and a
      marker whose index has no entry is left as it was (init.php:380). */
  function Restore(ts: seq<Token>, placeholders: map<nat, string>): (r: seq<Token>)
    ensures |r| == |ts|
    ensures forall j :: 0 <= j < |ts| && ts[j].Marker? && ts[j].index in placeholders ==>
              r[j] == Img(placeholders[ts[j].index])
    ensures forall j :: 0 <= j < |ts| && !(ts[j].Marker? && ts[j].index in placeholders) ==>
              r[j] == ts[j]
    ensures placeholders == map[] ==> r == ts
  {
    if |placeholders| == 0 then ts
    else seq(|ts|, j requires 0 <= j < |ts| => RestoreToken(ts[j], placeholders))
  }

  predicate NoMarkers(ts: seq<Token>) {
    forall j :: 0 <= j < |ts| ==> !ts[j].Marker?
  }

  /** Round trip: markup without marker spans of its own comes back
      unchanged when the provider returns the markers untouched. */
  lemma RoundTrip(content: seq<Token>)
    requires NoMarkers(content)
    ensures Restore(Protected(content), PlaceholderMap(content)) == content
  {
    var p, m := Protected(content), PlaceholderMap(content);
    PlaceholderMapIndexes(content);
    forall j | 0 <= j < |content|
      ensures Restore(p, m)[j] == content[j]
    {
      ProtectedAt(content, j);
      if content[j].Img? {
        TagsAt(content, j);
      }
    }
  }

  /** Order does not matter: wherever the provider moves the marker that
      protect() put at position i, restore puts the image of position i
      there. */
  lemma RestoreFollowsIndex(content: seq<Token>, reply: seq<Token>, i: nat, j: nat)
    requires i < |content| && content[i].Img?
    requires j < |reply| && reply[j] == Protected(content)[i]
    ensures Restore(reply, PlaceholderMap(content))[j] == content[i]
  {
    ProtectedAt(content, i);
    TagsAt(content, i);
    PlaceholderMapIndexes(content);
  }

  /** A marker span already present in the article is taken for one of
      protect()'s own: after the round trip, the span with index k shows
      the article's k-th image, and it is kept as it was when the article
      has no k-th image. */
  lemma PreexistingMarkerTakesImage(x: seq<Token>, i: nat)
    requires i < |x| && x[i].Marker?
    ensures |Protected(x)| == |x|
    ensures var r := Restore(Protected(x), PlaceholderMap(x));
            r[i] == if x[i].index < |Tags(x)| then Img(Tags(x)[x[i].index]) else x[i]
  {
    ProtectedAt(x, i);
    PlaceholderMapIndexes(x);
  }

  /** The smallest case: a span with index 0 before the only image makes
      that image appear twice. */
  lemma PreexistingMarkerIsReplaced()
    ensures var x := [Marker(0), Img("<img src=\"a.png\">")];
            Restore(Protected(x), PlaceholderMap(x)) == [Img("<img src=\"a.png\">"), Img("<img src=\"a.png\">")]
  {
    var x := [Marker(0), Img("<img src=\"a.png\">")];
    assert x[..1] == [Marker(0)];
    assert [Marker(0)][..0] == [];
    assert Tags(x[..1]) == [];
    assert Protected(x[..1]) == [Marker(0)];
    assert Protected(x) == [Marker(0), Marker(0)];
    assert PlaceholderMap(x[..1]) == map[];
    assert PlaceholderMap(x) == map[0 := "<img src=\"a.png\">"];
  }

  // ---------------------------------------------------------------------
  // SC_ON / SC_OFF removal on tokens (init.php:372 runs before restore)
  // ---------------------------------------------------------------------

  function StripToken(t: Token): Token {
    match t
    case Text(s) => Text(Strip(s))
    case Img(tag) => Img(Strip(tag))
    case Marker(_) => t
  }

  function StripTokens(ts: seq<Token>): (r: seq<Token>)
    ensures |r| == |ts|
    ensures forall j :: 0 <= j < |ts| ==> r[j] == StripToken(ts[j])
  {
    seq(|ts|, j requires 0 <= j < |ts| => StripToken(ts[j]))
  }

  /** Because stripping happens before restore, the image tags come back
      verbatim even when a tag itself contains a toggle. */
  lemma TagsSurviveStripping(content: seq<Token>, j: nat)
    requires j < |content| && content[j].Img?
    ensures Restore(StripTokens(Protected(content)), PlaceholderMap(content))[j] == content[j]
  {
    ProtectedAt(content, j);
    TagsAt(content, j);
    PlaceholderMapIndexes(content);
  }

  /** With an echoing provider, an article whose text holds no toggle and no
      marker span of its own comes back unchanged through strip + restore. */
  lemma EchoRoundTrip(content: seq<Token>)
    requires NoMarkers(content)
    requires forall j :: 0 <= j < |content| && content[j].Text? ==> !HasControlMarker(content[j].s)
    ensures Restore(StripTokens(Protected(content)), PlaceholderMap(content)) == content
  {
    var m := PlaceholderMap(content);
    var r := Restore(StripTokens(Protected(content)), m);
    forall j | 0 <= j < |content|
      ensures r[j] == content[j]
    {
      ProtectedAt(content, j);
      if content[j].Img? {
        TagsSurviveStripping(content, j);
      } else {
        StripKeepsMarkerFree(content[j].s);
      }
    }
  }

  // ---------------------------------------------------------------------
  // Stripping tokens is stripping the string they render
  // ---------------------------------------------------------------------

  predicate IsTag(s: string) {
    |s| >= 2 && s[0] == '<' && s[|s| - 1] == '>'
  }

  /** Token sequences as a tokeniser produces them: text runs are maximal,
      and an image is a whole tag. */
  predicate WellFormed(ts: seq<Token>) {
    && (forall j :: 0 <= j < |ts| && ts[j].Img? ==> IsTag(ts[j].tag))
    && (forall j :: 0 <= j < |ts| - 1 ==> !(ts[j].Text? && ts[j + 1].Text?))
  }

  /** Text without a capital S holds no toggle. */
  lemma NoCapitalSNoToggle(s: string)
    requires 'S' !in s
    ensures Strip(s) == s
  {
    forall i | 0 <= i < |s|
      ensures !MarkerAt(s, i)
    {
      assert s[i..][0] == s[i];
    }
    StripKeepsMarkerFree(s);
  }

  lemma MarkerHtmlHasNoToggle(index: nat)
    ensures Strip(MarkerHtml(index)) == MarkerHtml(index)
  {
    var d := NatToString(index);
    assert 'S' !in MarkerOpen;
    assert 'S' !in MarkerClose;
    assert 'S' !in d by {
      forall i | 0 <= i < |d| ensures d[i] != 'S' { }
    }
    assert 'S' !in MarkerOpen + d + MarkerClose;
    NoCapitalSNoToggle(MarkerOpen + d + MarkerClose);
  }

  lemma StripRenderToken(t: Token)
    ensures Strip(RenderToken(t)) == RenderToken(StripToken(t))
  {
    if t.Marker? {
      MarkerHtmlHasNoToggle(t.index);
    }
  }

  /** Between a token and the well-formed markup after it there is a clean
      seam: one of the two sides is a tag. */
  lemma SeamAfterToken(ts: seq<Token>)
    requires WellFormed(ts) && ts != []
    ensures CleanSeam(RenderToken(ts[0]), Render(ts[1..]))
  {
    var t, rest := ts[0], ts[1..];
    if rest != [] && t.Text? {
      assert !rest[0].Text?;
      assert Render(rest) == RenderToken(rest[0]) + Render(rest[1..]);
      if rest[0].Img? {
        assert IsTag(rest[0].tag);
      }
    } else if t.Img? {
      assert IsTag(t.tag);
    }
  }

  /** Stripping the provider's reply token by token is stripping its text:
      toggles cannot span a token boundary of well-formed markup, and marker
      spans contain none. */
  lemma {:induction false} StripRendered(ts: seq<Token>)
    requires WellFormed(ts)
    ensures Render(StripTokens(ts)) == Strip(Render(ts))
    decreases |ts|
  {
    if ts != [] {
      var t, rest := ts[0], ts[1..];
      assert WellFormed(rest);
      StripRendered(rest);
      calc {
        Render(StripTokens(ts));
        { assert StripTokens(ts)[1..] == StripTokens(rest); }
        RenderToken(StripToken(t)) + Render(StripTokens(rest));
        { StripRenderToken(t); }
        Strip(RenderToken(t)) + Strip(Render(rest));
        { SeamAfterToken(ts); StripAppend(RenderToken(t), Render(rest)); }
        Strip(RenderToken(t) + Render(rest));
      }
    }
  }
}
