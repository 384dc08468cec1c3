/** The plugin's stored configuration: its defaults (init.php:12-22) and the
    normalisation save() applies to the preference form before storing it
    (init.php:176-214). */
module Settings {
  import opened Common

  datatype Config = Config(
    url: string,
    apiKey: string,
    target: string,
    mode: string,
    displayMode: string,
    translateTitles: bool,
    titleDisplayMode: string)

  /** defaults() (init.php:12-22). */
  function Defaults(): (c: Config)
    ensures c.url != "" && c.target != "" && IsLower(c.target)
    ensures c.mode in ModeChoices && c.displayMode in DisplayChoices
    ensures c.titleDisplayMode in DisplayChoices && !c.translateTitles
  {
    Config("http://translate", "", "en", "auto_append", "append", false, "append")
  }

  const ModeChoices: set<string> := {"auto_append", "manual"}
  const DisplayChoices: set<string> := {"append", "replace"}

  /** The posted form: a field the request does not carry is None. */
  datatype Form = Form(
    url: Option<string>,
    apiKey: Option<string>,
    target: Option<string>,
    mode: Option<string>,
    displayMode: Option<string>,
    translateTitles: Option<string>,
    titleDisplayMode: Option<string>)

  // ---------------------------------------------------------------------
  // filter_var($v, FILTER_VALIDATE_BOOLEAN)
  // ---------------------------------------------------------------------

  /** The characters filter_var trims before it reads a boolean. */
  const FilterWhitespace: set<char> := {' ', '\t', '\r', '\n', '\U{0B}'}

  const TrueWords: set<string> := {"1", "true", "on", "yes"}

  /** FILTER_VALIDATE_BOOLEAN without FILTER_NULL_ON_FAILURE: true for the
      words it accepts as true, in any case and with surrounding blanks;
      false for everything else, and for a missing field (`?? false`). */
  predicate FilterBool(v: Option<string>)
    ensures FilterBool(v) ==> v.Some?
  {
    v.Some? && Lower(TrimRight(TrimLeft(v.value, FilterWhitespace), FilterWhitespace)) in TrueWords
  }

  /** A whitelisted choice, or the default when the field is missing or not
      one of the choices (strict in_array). */
  function Choose(v: Option<string>, choices: set<string>, default: string): (r: string)
    requires default in choices
    ensures r in choices
    ensures v.Some? && v.value in choices ==> r == v.value
    ensures !(v.Some? && v.value in choices) ==> r == default
  {
    if v.Some? && v.value in choices then v.value else default
  }

  /** The URL save() stores: trimmed, then stripped of trailing slashes, or
      the default when the trimmed input is empty (init.php:177-178). */
  function NormalizeUrl(v: Option<string>): (r: string)
    ensures Trim(v.GetOr("")) == "" ==> r == Defaults().url
    ensures var u := Trim(v.GetOr(""));
            u != "" ==> |r| <= |u| && u[..|r|] == r && forall i :: |r| <= i < |u| ==> u[i] == '/'
    ensures r == [] || r[|r| - 1] != '/'
  {
    var u := Trim(v.GetOr(""));
    if u != "" then TrimRight(u, {'/'})
    else
      var d := Defaults().url;
      assert d[|d| - 1] == 'e';
      d
  }

  /** The target language: trimmed and lower-cased, "en" when that leaves
      nothing (init.php:181-185). */
  function NormalizeTarget(v: Option<string>): (r: string)
    ensures r != [] && IsLower(r)
    ensures Trim(v.GetOr("")) != "" ==> r == Lower(Trim(v.GetOr("")))
    ensures Trim(v.GetOr("")) == "" ==> r == Defaults().target
  {
    var t := Lower(Trim(v.GetOr("")));
    if t == "" then Defaults().target else t
  }

  /** save() (init.php:176-211): what is stored for a posted form. */
  function Save(f: Form): (c: Config)
    ensures c.mode in ModeChoices
    ensures c.displayMode in DisplayChoices && c.titleDisplayMode in DisplayChoices
    ensures c.target != "" && IsLower(c.target)
    ensures c.url == [] || c.url[|c.url| - 1] != '/'
    ensures Trim(f.url.GetOr("")) == "" ==> c.url == Defaults().url
    ensures c.apiKey == Trim(f.apiKey.GetOr(""))
    ensures c.translateTitles <==> FilterBool(f.translateTitles)
    ensures f.mode.Some? && f.mode.value in ModeChoices ==> c.mode == f.mode.value
    ensures f.displayMode.Some? && f.displayMode.value in DisplayChoices ==> c.displayMode == f.displayMode.value
    ensures f.titleDisplayMode.Some? && f.titleDisplayMode.value in DisplayChoices ==>
              c.titleDisplayMode == f.titleDisplayMode.value
  {
    var d := Defaults();
    Config(
      NormalizeUrl(f.url),
      Trim(f.apiKey.GetOr("")),
      NormalizeTarget(f.target),
      Choose(f.mode, ModeChoices, d.mode),
      Choose(f.displayMode, DisplayChoices, d.displayMode),
      FilterBool(f.translateTitles),
      Choose(f.titleDisplayMode, DisplayChoices, d.titleDisplayMode))
  }

  /** The form the preference tab shows for a stored configuration: every
      field filled in, the title checkbox posting "1" only when ticked. */
  function FormOf(c: Config): (f: Form)
    ensures f.url == Some(c.url) && f.target == Some(c.target)
    ensures f.translateTitles.Some? <==> c.translateTitles
  {
    Form(Some(c.url), Some(c.apiKey), Some(c.target), Some(c.mode), Some(c.displayMode),
         if c.translateTitles then Some("1") else None, Some(c.titleDisplayMode))
  }

  // ---------------------------------------------------------------------
  // Properties
  // ---------------------------------------------------------------------

  /** A configuration save() could have stored and that its own form
      stores again unchanged. */
  predicate Resaveable(c: Config) {
    && c.url != "" && Trim(c.url) == c.url && c.url[|c.url| - 1] != '/'
    && Trim(c.apiKey) == c.apiKey
    && c.target != "" && Trim(c.target) == c.target && Lower(c.target) == c.target
    && c.mode in ModeChoices && c.displayMode in DisplayChoices && c.titleDisplayMode in DisplayChoices
  }

  lemma SaveOfResaveable(c: Config)
    requires Resaveable(c)
    ensures Save(FormOf(c)) == c
  {
    var d := Save(FormOf(c));
    UrlStable(c.url);
    assert d.url == c.url;
    CheckboxStable(c.translateTitles);
    assert d.translateTitles == c.translateTitles;
    assert d.target == c.target && d.apiKey == c.apiKey;
  }

  /** Saving the untouched form of the defaults stores the defaults. */
  lemma SaveDefaults()
    ensures Save(FormOf(Defaults())) == Defaults()
  {
    var d := Defaults();
    DefaultUrlIsNormal();
    DefaultTargetIsNormal();
    assert Trim(d.apiKey) == d.apiKey by { assert d.apiKey == ""; }
    SaveOfResaveable(d);
  }

  /** trim() leaves no blank at either end. */
  lemma TrimmedEnds(s: string)
    ensures Trim(s) == [] || (Trim(s)[0] !in PhpWhitespace && Trim(s)[|Trim(s)| - 1] !in PhpWhitespace)
  {
  }

  /** A string that neither starts nor ends with a blank is its own trim. */
  lemma TrimOfTrimmed(s: string)
    requires s == [] || (s[0] !in PhpWhitespace && s[|s| - 1] !in PhpWhitespace)
    ensures Trim(s) == s
  {
  }

  lemma LowerKeepsEnds(s: string)
    requires s == [] || (s[0] !in PhpWhitespace && s[|s| - 1] !in PhpWhitespace)
    ensures var l := Lower(s); l == [] || (l[0] !in PhpWhitespace && l[|l| - 1] !in PhpWhitespace)
  {
  }

  lemma LowerOfLower(s: string)
    requires IsLower(s)
    ensures Lower(s) == s
  {
  }

  lemma DefaultUrlIsNormal()
    ensures var u := Defaults().url; Trim(u) == u && u[|u| - 1] != '/'
  {
    var u := Defaults().url;
    assert u[0] == 'h' && u[|u| - 1] == 'e';
    TrimOfTrimmed(u);
  }

  lemma UrlStable(u: string)
    requires u != "" && Trim(u) == u && u[|u| - 1] != '/'
    ensures NormalizeUrl(Some(u)) == u
  {
  }

  lemma TargetStable(v: Option<string>)
    ensures NormalizeTarget(Some(NormalizeTarget(v))) == NormalizeTarget(v)
  {
    var t := Trim(v.GetOr(""));
    TrimmedEnds(v.GetOr(""));
    if t != "" {
      LowerKeepsEnds(t);
      TrimOfTrimmed(Lower(t));
      LowerOfLower(Lower(t));
    } else {
      DefaultTargetIsNormal();
    }
  }

  lemma DefaultTargetIsNormal()
    ensures Trim("en") == "en" && Lower("en") == "en"
  {
    var s := "en";
    assert s[0] == 'e' && s[1] == 'n';
    TrimOfTrimmed(s);
    assert Lower(s)[0] == 'e' && Lower(s)[1] == 'n';
  }

  lemma ApiKeyStable(v: Option<string>)
    ensures Trim(Trim(v.GetOr(""))) == Trim(v.GetOr(""))
  {
    TrimmedEnds(v.GetOr(""));
    TrimOfTrimmed(Trim(v.GetOr("")));
  }

  lemma CheckboxStable(b: bool)
    ensures FilterBool(if b then Some("1") else None) == b
  {
    if b {
      var s := "1";
      assert s[0] == '1' && s[0] !in FilterWhitespace;
      assert TrimLeft(s, FilterWhitespace) == s;
      assert TrimRight(s, FilterWhitespace) == s;
      assert Lower(s)[0] == '1';
      assert Lower(s) == s;
      assert s in TrueWords;
    }
  }

  /** Saving a stored configuration again changes nothing, provided its URL
      is non-empty and carries no blank at either end. */
  lemma SaveIdempotent(f: Form)
    requires var c := Save(f); c.url != "" && Trim(c.url) == c.url
    ensures Save(FormOf(Save(f))) == Save(f)
  {
    var c := Save(f);
    var g := FormOf(c);
    var d := Save(g);
    UrlStable(c.url);
    assert d.url == c.url;
    TargetStable(f.target);
    assert d.target == c.target;
    ApiKeyStable(f.apiKey);
    assert d.apiKey == c.apiKey;
    CheckboxStable(c.translateTitles);
    assert d.translateTitles == c.translateTitles;
    assert d.mode == c.mode && d.displayMode == c.displayMode;
    assert d.titleDisplayMode == c.titleDisplayMode;
  }

  /** trim() runs before rtrim("/"), so a blank before the final slash is
      kept, and normalising once more removes it: save() is not idempotent
      on such a URL. */
  lemma UrlKeepsBlankBeforeSlash()
    ensures NormalizeUrl(Some("a /")) == "a "
    ensures NormalizeUrl(Some("a ")) == "a"
  {
    var s, t, u := "a /", "a ", "a";
    assert s[0] == 'a' && s[2] == '/' && s[..2] == t;
    assert t[0] == 'a' && t[1] == ' ' && t[..1] == u;
    TrimOfTrimmed(s);
    assert TrimRight(u, {'/'}) == u;
    assert TrimRight(s, {'/'}) == t;
    assert TrimRight(u, PhpWhitespace) == u;
    assert TrimRight(t, PhpWhitespace) == u;
    assert TrimLeft(t, PhpWhitespace) == t;
  }

  /** A URL made of slashes only is not empty after trim(), so it does not
      fall back to the default: the stored URL is empty, and translate()
      then reports the service as not configured. */
  lemma SlashOnlyUrlStoredEmpty()
    ensures NormalizeUrl(Some("/")) == ""
  {
    var s := "/";
    assert s[0] == '/';
    TrimOfTrimmed(s);
    assert s[..0] == "";
  }
}
