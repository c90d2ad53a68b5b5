/**
  The "simple recolour" both icon renderers apply to raw SVG text:
  `raw.replace(/fill="[^"]*"/g, 'fill="' + color + '"')`.

  The pattern matches at a position exactly when the text there starts
  with `fill="` and a further `"` follows somewhere; the match then ends at
  the first such quote. A global replace scans left to right and resumes
  after each match.
*/
module FillRecolor {
  import opened Strings

  const FillOpen: string := "fill=\""

  /** The pattern matches at the start of `s`. */
  predicate MatchesAtStart(s: string)
  {
    StartsWith(s, FillOpen) && '"' in s[6..]
  }

  /** The text after the match at the start of `s`. */
  function AfterMatch(s: string): (t: string)
    requires MatchesAtStart(s)
    ensures |t| < |s|
  {
    s[6 + FirstIndexOf(s[6..], '"') + 1..]
  }

  function RecolorFills(s: string, color: string): (r: string)
    ensures '"' !in s ==> r == s
    decreases |s|
  {
    if s == [] then []
    else if MatchesAtStart(s) then FillOpen + color + "\"" + RecolorFills(AfterMatch(s), color)
    else [s[0]] + RecolorFills(s[1..], color)
  }

  /** Text without any `fill="` occurrence comes back unchanged. */
  lemma {:induction false} NoFillAttributeUnchanged(s: string, color: string)
    requires forall i :: 0 <= i <= |s| ==> !StartsWith(s[i..], FillOpen)
    ensures RecolorFills(s, color) == s
    decreases |s|
  {
    if s != [] {
      assert s[0..] == s;
      forall i | 0 <= i <= |s[1..]| ensures !StartsWith(s[1..][i..], FillOpen) {
        assert s[1..][i..] == s[i + 1..];
      }
      NoFillAttributeUnchanged(s[1..], color);
    }
  }

  /** Text shorter than `fill=""` holds no match. */
  lemma {:induction false} ShortUnchanged(s: string, color: string)
    requires |s| < 7
    ensures RecolorFills(s, color) == s
    decreases |s|
  {
    if s != [] {
      ShortUnchanged(s[1..], color);
    }
  }

  /** Text with at most one `"` holds no match: every match has two. */
  lemma {:induction false} OneQuoteUnchanged(s: string, color: string)
    requires forall i, j :: 0 <= i < j < |s| && s[i] == '"' ==> s[j] != '"'
    ensures RecolorFills(s, color) == s
    decreases |s|
  {
    if s != [] {
      if StartsWith(s, FillOpen) {
        assert s[5] == FillOpen[5] == '"';
        forall k | 0 <= k < |s[6..]| ensures s[6..][k] != '"' {
          assert s[6..][k] == s[6 + k];
        }
      }
      forall i, j | 0 <= i < j < |s[1..]| && s[1..][i] == '"' ensures s[1..][j] != '"' {
        assert s[i + 1] == '"';
      }
      OneQuoteUnchanged(s[1..], color);
      assert s == [s[0]] + s[1..];
    }
  }

  /** Recolouring keeps the first six characters of the text. */
  lemma {:induction false} HeadKept(s: string, color: string, i: nat)
    requires i < 6 && i < |s|
    ensures i < |RecolorFills(s, color)| && RecolorFills(s, color)[i] == s[i]
    decreases |s|
  {
    if !MatchesAtStart(s) && i > 0 {
      HeadKept(s[1..], color, i - 1);
    }
  }

  /** Where the pattern does not match at the start, it does not match at
      the start of the recoloured text either. */
  lemma NoMatchKept(s: string, color: string)
    requires s != [] && !MatchesAtStart(s)
    ensures !MatchesAtStart([s[0]] + RecolorFills(s[1..], color))
  {
    var o := [s[0]] + RecolorFills(s[1..], color);
    if !StartsWith(s, FillOpen) {
      if |s| >= 6 {
        var j :| 0 <= j < 6 && s[j] != FillOpen[j];
        HeadKept(s[1..], color, 4);
        if j > 0 { HeadKept(s[1..], color, j - 1); }
        assert o[j] == s[j];
      } else {
        ShortUnchanged(s[1..], color);
      }
    } else {
      forall i | 0 <= i < |s| - 1 && i != 4 ensures s[1..][i] != '"' {
        if i < 4 { assert s[i + 1] == FillOpen[i + 1]; } else { assert s[i + 1] == s[6..][i - 5]; }
      }
      OneQuoteUnchanged(s[1..], color);
      assert o == s;
    }
  }

  /** Recolouring twice is recolouring once with the last colour, when the
      first colour holds no quote. With the same colour this is idempotence;
      with the empty colour it says that only fill values differ between
      the input and the output. */
  lemma {:induction false} LastColourWins(s: string, c: string, d: string)
    requires '"' !in c
    ensures RecolorFills(RecolorFills(s, c), d) == RecolorFills(s, d)
    decreases |s|
  {
    if s != [] {
      if MatchesAtStart(s) {
        var t := AfterMatch(s);
        var o := FillOpen + c + "\"" + RecolorFills(t, c);
        assert o[6..] == c + "\"" + RecolorFills(t, c);
        assert o[6..][|c|] == '"';
        assert o[6..][..|c|] == c;
        FirstIndexOfIs(o[6..], '"', |c|);
        assert StartsWith(o, FillOpen);
        assert AfterMatch(o) == RecolorFills(t, c);
        LastColourWins(t, c, d);
      } else {
        NoMatchKept(s, c);
        LastColourWins(s[1..], c, d);
      }
    }
  }

  /** An attribute `fill="v"` at the start of the text becomes
      `fill="color"`, and the scan resumes right after its closing quote. */
  lemma ReplacesLeadingValue(v: string, rest: string, color: string)
    requires '"' !in v
    ensures RecolorFills(FillOpen + v + "\"" + rest, color) == FillOpen + color + "\"" + RecolorFills(rest, color)
  {
    var s := FillOpen + v + "\"" + rest;
    assert s[6..] == v + "\"" + rest;
    assert s[6..][..|v|] == v && s[6..][|v|] == '"';
    FirstIndexOfIs(s[6..], '"', |v|);
    assert StartsWith(s, FillOpen);
    assert AfterMatch(s) == rest;
  }
}
