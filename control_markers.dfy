/** Removal of the formatting toggles `SC_ON` / `SC_OFF` that an upstream
    translation provider leaves in its output (init.php:372 for the body,
    init.php:421 for the title). The regular expression `SC_(?:ON|OFF)` is
    replaced by the empty string in one left-to-right pass: every
    non-overlapping occurrence found in the ORIGINAL text goes, and what the
    removals glue together is not scanned again. */
module ControlMarkers {

  predicate StartsWith(s: string, p: string) {
    |p| <= |s| && s[..|p|] == p
  }

  /** A toggle begins at position i of s. */
  predicate MarkerAt(s: string, i: int) {
    0 <= i <= |s| && (StartsWith(s[i..], "SC_ON") || StartsWith(s[i..], "SC_OFF"))
  }

  predicate HasControlMarker(s: string) {
    exists i :: 0 <= i < |s| && MarkerAt(s, i)
  }

  /** One pass of preg_replace('/SC_(?:ON|OFF)/', '', s). */
  function Strip(s: string): (r: string)
    ensures |r| <= |s|
    decreases |s|
  {
    if s == [] then []
    else if StartsWith(s, "SC_ON") then Strip(s[5..])
    else if StartsWith(s, "SC_OFF") then Strip(s[6..])
    else [s[0]] + Strip(s[1..])
  }

  lemma {:induction false} StripKeepsMarkerFree(s: string)
    requires !HasControlMarker(s)
    ensures Strip(s) == s
    decreases |s|
  {
    if s != [] {
      assert !MarkerAt(s, 0);
      forall i | 0 <= i < |s[1..]|
        ensures !MarkerAt(s[1..], i)
      {
        assert s[1..][i..] == s[i + 1..];
        assert !MarkerAt(s, i + 1);
      }
      StripKeepsMarkerFree(s[1..]);
    }
  }

  lemma {:induction false} StripShortens(s: string, i: int)
    requires 0 <= i < |s| && MarkerAt(s, i)
    ensures |Strip(s)| < |s|
    decreases |s|
  {
    if !StartsWith(s, "SC_ON") && !StartsWith(s, "SC_OFF") {
      assert i != 0;
      assert s[1..][i - 1..] == s[i..];
      StripShortens(s[1..], i - 1);
    }
  }

  /** Text is left exactly as it was if and only if it holds no toggle. */
  lemma StripUnchangedIff(s: string)
    ensures Strip(s) == s <==> !HasControlMarker(s)
  {
    if HasControlMarker(s) {
      var i :| 0 <= i < |s| && MarkerAt(s, i);
      StripShortens(s, i);
    } else {
      StripKeepsMarkerFree(s);
    }
  }

  /** The tail of the example below: the toggle in it goes, the "ON"
      after it stays. */
  lemma StripExampleTail()
    ensures Strip("C_SC_ONON") == "C_ON"
  {
    var s1, s2, s3 := "C_SC_ONON", "_SC_ONON", "SC_ONON";
    assert "ON"[1..] == "N" && "N"[1..] == "";
    assert Strip("ON") == "ON";
    assert s3[..5] == "SC_ON" && s3[5..] == "ON";
    assert Strip(s3) == "ON";
    assert s2[0] == '_' && s2[1..] == s3;
    assert Strip(s2) == "_ON";
    assert s1[0] == 'C' && s1[1..] == s2;
  }

  /** One pass does not guarantee toggle-free output: the removal in
      "SC_SC_ONON" glues a new "SC_ON" together. */
  lemma StripMayLeaveMarker()
    ensures Strip("SC_SC_ONON") == "SC_ON"
    ensures HasControlMarker(Strip("SC_SC_ONON"))
  {
    var s0, m := "SC_SC_ONON", "SC_ON";
    StripExampleTail();
    assert !StartsWith(s0, m) by { assert s0[..5][3] == 'S' && m[3] == 'O'; }
    assert !StartsWith(s0, "SC_OFF") by { assert s0[..6][3] == 'S' && "SC_OFF"[3] == 'O'; }
    assert s0[1..] == "C_SC_ONON";
    assert Strip(s0) == [s0[0]] + Strip("C_SC_ONON");
    assert Strip(s0) == m;
    assert m[0..] == m && MarkerAt(m, 0);
    assert HasControlMarker(m);
  }

  /** The characters toggles are made of. */
  const ToggleChars: set<char> := {'S', 'C', '_', 'O', 'N', 'F'}

  /** a + b has a seam no toggle can straddle: one side of it is a character
      that never occurs in a toggle (a tag's '<' or '>', a quote, a digit). */
  predicate CleanSeam(a: string, b: string) {
    a == [] || b == [] || a[|a| - 1] !in ToggleChars || b[0] !in ToggleChars
  }

  /** No toggle can straddle a clean seam. */
  lemma NoMarkerAcross(a: string, b: string, p: string)
    requires p == "SC_ON" || p == "SC_OFF"
    requires a != [] && b != [] && CleanSeam(a, b)
    requires !StartsWith(a, p)
    ensures !StartsWith(a + b, p)
  {
    var s := a + b;
    if |a| < |p| {
      assert s[|a| - 1] == a[|a| - 1] && s[|a|] == b[0];
      forall k | 0 <= k < |p|
        ensures p[k] in ToggleChars
      {
      }
    } else {
      assert s[..|p|] == a[..|p|];
    }
  }

  /** Stripping distributes over a concatenation with a clean seam. This is
      what lets the model strip markup token by token. */
  lemma {:induction false} StripAppend(a: string, b: string)
    requires CleanSeam(a, b)
    ensures Strip(a + b) == Strip(a) + Strip(b)
    decreases |a|, 1
  {
    if a == [] {
      assert a + b == b;
    } else if b == [] {
      assert a + b == a;
    } else if StartsWith(a, "SC_ON") {
      StripAppendAfterToggle(a, b, "SC_ON");
    } else if StartsWith(a, "SC_OFF") {
      StripAppendAfterToggle(a, b, "SC_OFF");
    } else {
      StripAppendPlain(a, b);
    }
  }

  lemma {:induction false} StripAppendAfterToggle(a: string, b: string, p: string)
    requires p == "SC_ON" || p == "SC_OFF"
    requires a != [] && b != [] && CleanSeam(a, b)
    requires StartsWith(a, p)
    requires p == "SC_OFF" ==> !StartsWith(a, "SC_ON")
    ensures Strip(a + b) == Strip(a) + Strip(b)
    decreases |a|, 0
  {
    var s := a + b;
    assert s[..|p|] == a[..|p|];
    assert s[..5] == a[..5];
    assert s[|p|..] == a[|p|..] + b;
    assert Strip(s) == Strip(s[|p|..]);
    assert Strip(a) == Strip(a[|p|..]);
    StripAppend(a[|p|..], b);
  }

  lemma {:induction false} StripAppendPlain(a: string, b: string)
    requires a != [] && b != [] && CleanSeam(a, b)
    requires !StartsWith(a, "SC_ON") && !StartsWith(a, "SC_OFF")
    ensures Strip(a + b) == Strip(a) + Strip(b)
    decreases |a|, 0
  {
    var s := a + b;
    NoMarkerAcross(a, b, "SC_ON");
    NoMarkerAcross(a, b, "SC_OFF");
    assert s[0] == a[0];
    assert s[1..] == a[1..] + b;
    assert Strip(s) == [a[0]] + Strip(s[1..]);
    StripAppend(a[1..], b);
  }
}
