/** The output cleaner applied to every generated answer
    (`_clean_answer` in src/chatbot/rag_engine.py). */
module Cleaning {
  import opened Text

  /** The fixed sentence that replaces a degenerate answer (note the typographic apostrophe).
      It is written in three pieces only to keep the verifier's reasoning about it short. */
  const Fallback: string := "I don\U{2019}t know " + "based on the " + "available documents."

  const EmDash: char := '\U{2014}'

  /** Answers that count as empty: a lone full stop, colon, hyphen or em dash. */
  const Degenerate: set<string> := {".", ":", "-", [EmDash]}

  lemma FallbackShape()
    ensures |Fallback| == 46 && Fallback[0] == 'I' && Fallback[45] == '.'
    ensures Fallback !in Degenerate
  {
  }

  /** The slice `text[i..j]` that `text.strip().lstrip(":").lstrip().lstrip("-").lstrip("—").strip()`
      keeps. Each call works on what the previous one left, so every step is an index into `text`:
      `[a, b)` is the trimmed text, `p1`..`p5` are where it starts after each left strip, and the
      final strip moves the end back from `b`. */
  function TrimBounds(text: string): (ij: (nat, nat))
    ensures ij.0 <= ij.1 <= |text|
  {
    var a := SkipLeading(text, Spaces, 0, |text|);
    var b := SkipTrailing(text, Spaces, a, |text|);
    var p1 := SkipLeading(text, Chars({':'}), a, b);
    var p2 := SkipLeading(text, Spaces, p1, b);
    var p3 := SkipLeading(text, Chars({'-'}), p2, b);
    var p4 := SkipLeading(text, Chars({EmDash}), p3, b);
    var p5 := SkipLeading(text, Spaces, p4, b);
    (p5, SkipTrailing(text, Spaces, p5, b))
  }

  /** The trimmed text before the fallback check (`cleaned` in the source). */
  function Trimmed(text: string): (r: string)
    ensures |r| <= |text|
  {
    var ij := TrimBounds(text);
    text[ij.0..ij.1]
  }

  /** `_clean_answer`: the trimmed text, or `Fallback` when that is empty or degenerate. */
  function Clean(text: string): (r: string)
    ensures r != "" && r !in Degenerate
  {
    FallbackShape();
    var cleaned := Trimmed(text);
    if cleaned == "" || cleaned in Degenerate then Fallback else cleaned
  }

  /** The characters the cleaner may remove from the front of an answer. */
  predicate IsLeadingJunk(c: char) { IsSpace(c) || c == ':' || c == '-' || c == EmDash }

  /** `r` is `text[i..j]` where everything cut from the front is whitespace or
      leading punctuation and everything cut from the back is whitespace. */
  predicate TrimmedFrom(text: string, r: string, i: int, j: int) {
    && 0 <= i <= j <= |text|
    && r == text[i..j]
    && (forall k :: 0 <= k < i ==> IsLeadingJunk(text[k]))
    && (forall k :: j <= k < |text| ==> IsSpace(text[k]))
  }

  /** A cleaned answer is either the fallback sentence or a contiguous part of the
      raw text, obtained by cutting only whitespace and leading `:`, `-`, em dash. */
  lemma CleanIsTrimmedSlice(text: string)
    ensures Clean(text) == Fallback || exists i, j :: TrimmedFrom(text, Clean(text), i, j)
  {
    var a := SkipLeading(text, Spaces, 0, |text|);
    var b := SkipTrailing(text, Spaces, a, |text|);
    var p1 := SkipLeading(text, Chars({':'}), a, b);
    var p2 := SkipLeading(text, Spaces, p1, b);
    var p3 := SkipLeading(text, Chars({'-'}), p2, b);
    var p4 := SkipLeading(text, Chars({EmDash}), p3, b);
    var p5 := SkipLeading(text, Spaces, p4, b);
    var q := SkipTrailing(text, Spaces, p5, b);
    assert TrimBounds(text) == (p5, q);
    SkipLeadingSkips(text, Spaces, 0, |text|);
    SkipTrailingSkips(text, Spaces, a, |text|);
    SkipLeadingSkips(text, Chars({':'}), a, b);
    SkipLeadingSkips(text, Spaces, p1, b);
    SkipLeadingSkips(text, Chars({'-'}), p2, b);
    SkipLeadingSkips(text, Chars({EmDash}), p3, b);
    SkipLeadingSkips(text, Spaces, p4, b);
    SkipTrailingSkips(text, Spaces, p5, b);
    forall k | 0 <= k < p5 ensures IsLeadingJunk(text[k]) {
      if k < a {
      } else if k < p1 {
        assert InStripSet(text[k], Chars({':'}));
      } else if k < p2 {
      } else if k < p3 {
        assert InStripSet(text[k], Chars({'-'}));
      } else if k < p4 {
        assert InStripSet(text[k], Chars({EmDash}));
      }
    }
    assert TrimmedFrom(text, Trimmed(text), p5, q);
  }

  /** The trimmed slice, when not empty, starts and ends with a non-space. */
  lemma TrimBoundsEnds(text: string)
    ensures var ij := TrimBounds(text);
      ij.0 < ij.1 ==> !InStripSet(text[ij.0], Spaces) && !InStripSet(text[ij.1 - 1], Spaces)
  {
    var a := SkipLeading(text, Spaces, 0, |text|);
    var b := SkipTrailing(text, Spaces, a, |text|);
    var p1 := SkipLeading(text, Chars({':'}), a, b);
    var p2 := SkipLeading(text, Spaces, p1, b);
    var p3 := SkipLeading(text, Chars({'-'}), p2, b);
    var p4 := SkipLeading(text, Chars({EmDash}), p3, b);
    var p5 := SkipLeading(text, Spaces, p4, b);
    var q := SkipTrailing(text, Spaces, p5, b);
    assert TrimBounds(text) == (p5, q);
  }

  /** A cleaned answer neither starts nor ends with whitespace. */
  lemma CleanHasNoOuterSpace(text: string)
    ensures var r := Clean(text); !IsSpace(r[0]) && !IsSpace(r[|r| - 1])
  {
    FallbackShape();
    TrimBoundsEnds(text);
    var ij := TrimBounds(text);
    var r := Clean(text);
    if r != Fallback {
      assert r == text[ij.0..ij.1] && ij.0 < ij.1;
      assert r[0] == text[ij.0] && r[|r| - 1] == text[ij.1 - 1];
    }
  }

  /** An answer that already starts with a character the cleaner keeps and ends with a
      non-space is returned unchanged, unless it is a lone degenerate mark. */
  lemma CleanPassesThrough(t: string)
    requires t != "" && t !in Degenerate
    requires !IsLeadingJunk(t[0]) && !IsSpace(t[|t| - 1])
    ensures Clean(t) == t
  {
    var n := |t|;
    assert SkipLeading(t, Spaces, 0, n) == 0;
    assert SkipTrailing(t, Spaces, 0, n) == n;
    assert SkipLeading(t, Chars({':'}), 0, n) == 0;
    assert SkipLeading(t, Chars({'-'}), 0, n) == 0;
    assert SkipLeading(t, Chars({EmDash}), 0, n) == 0;
    assert TrimBounds(t) == (0, n);
    assert Trimmed(t) == t[0..n] == t;
  }

  /** Whitespace around an answer is removed and nothing else: a reply that is `r` with
      whitespace before and after it, where `r` starts with a character the cleaner keeps,
      ends with a non-space and is not a lone degenerate mark, cleans to `r`. */
  lemma CleanStripsOuterSpace(w1: string, r: string, w2: string)
    requires forall k :: 0 <= k < |w1| ==> IsSpace(w1[k])
    requires forall k :: 0 <= k < |w2| ==> IsSpace(w2[k])
    requires r != "" && r !in Degenerate
    requires !IsLeadingJunk(r[0]) && !IsSpace(r[|r| - 1])
    ensures Clean(w1 + r + w2) == r
  {
    var t := w1 + r + w2;
    var a := |w1|;
    var b := |w1| + |r|;
    assert t[a] == r[0] && t[b - 1] == r[|r| - 1];
    assert forall k :: 0 <= k < a ==> t[k] == w1[k];
    assert forall k :: b <= k < |t| ==> t[k] == w2[k - b];
    SkipLeadingTo(t, Spaces, 0, a, |t|);
    SkipTrailingTo(t, Spaces, a, b, |t|);
    SkipLeadingTo(t, Chars({':'}), a, a, b);
    SkipLeadingTo(t, Spaces, a, a, b);
    SkipLeadingTo(t, Chars({'-'}), a, a, b);
    SkipLeadingTo(t, Chars({EmDash}), a, a, b);
    SkipTrailingTo(t, Spaces, a, b, b);
    assert TrimBounds(t) == (a, b);
    assert Trimmed(t) == t[a..b] == r;
  }

  /** The fallback replaces only what is empty or degenerate after trimming: when it is
      chosen, every character of the reply is whitespace, a leading `:`, `-`, em dash, or
      the one full stop that is left. */
  lemma FallbackOnlyWhenJunk(t: string)
    requires Clean(t) == Fallback && Trimmed(t) != Fallback
    ensures forall k :: 0 <= k < |t| ==> IsLeadingJunk(t[k]) || t[k] == '.'
  {
    var a := SkipLeading(t, Spaces, 0, |t|);
    var b := SkipTrailing(t, Spaces, a, |t|);
    var p1 := SkipLeading(t, Chars({':'}), a, b);
    var p2 := SkipLeading(t, Spaces, p1, b);
    var p3 := SkipLeading(t, Chars({'-'}), p2, b);
    var p4 := SkipLeading(t, Chars({EmDash}), p3, b);
    var p5 := SkipLeading(t, Spaces, p4, b);
    var q := SkipTrailing(t, Spaces, p5, b);
    assert TrimBounds(t) == (p5, q);
    var c := t[p5..q];
    assert c == "" || c in Degenerate;
    assert q <= p5 + 1;
    SkipLeadingSkips(t, Spaces, 0, |t|);
    SkipTrailingSkips(t, Spaces, a, |t|);
    SkipLeadingSkips(t, Chars({':'}), a, b);
    SkipLeadingSkips(t, Spaces, p1, b);
    SkipLeadingSkips(t, Chars({'-'}), p2, b);
    SkipLeadingSkips(t, Chars({EmDash}), p3, b);
    SkipLeadingSkips(t, Spaces, p4, b);
    SkipTrailingSkips(t, Spaces, p5, b);
    forall k | 0 <= k < |t| ensures IsLeadingJunk(t[k]) || t[k] == '.' {
      if k < a {
      } else if k < p1 {
        assert InStripSet(t[k], Chars({':'}));
      } else if k < p2 {
      } else if k < p3 {
        assert InStripSet(t[k], Chars({'-'}));
      } else if k < p4 {
        assert InStripSet(t[k], Chars({EmDash}));
      } else if k < p5 {
      } else if k < q {
        assert k == p5 && c == [t[k]];
      } else if k < b {
      }
    }
  }

  /** A reply ending in a newline keeps its text. */
  lemma CleanTrailingNewline()
    ensures Clean("Rent is due.\n") == "Rent is due."
  {
    var r := "Rent is due.";
    assert r[|r| - 1] == '.' && r[0] == 'R';
    assert r !in Degenerate by { assert |r| == 12; }
    assert "" + r + "\n" == "Rent is due.\n";
    CleanStripsOuterSpace("", r, "\n");
  }

  /** The fallback sentence is left as it is. */
  lemma CleanFallback()
    ensures Clean(Fallback) == Fallback
  {
    FallbackShape();
    assert TrimBounds(Fallback) == (0, 46);
  }

  /** A leading hyphen goes, but the colon behind it stays: the colon strip ran first. */
  lemma CleanDashColon()
    ensures Clean("-:abc") == ":abc"
  {
    var s := "-:abc";
    assert SkipLeading(s, Spaces, 0, 5) == 0 && SkipTrailing(s, Spaces, 0, 5) == 5;
    assert SkipLeading(s, Chars({':'}), 0, 5) == 0 && SkipLeading(s, Spaces, 0, 5) == 0;
    assert SkipLeading(s, Chars({'-'}), 1, 5) == 1;
    assert SkipLeading(s, Chars({'-'}), 0, 5) == 1;
    assert SkipLeading(s, Chars({EmDash}), 1, 5) == 1 && SkipLeading(s, Spaces, 1, 5) == 1;
    assert SkipTrailing(s, Spaces, 1, 5) == 5;
    assert TrimBounds(s) == (1, 5);
    assert Clean(s) == s[1..5] == ":abc";
  }

  /** A leading colon goes. */
  lemma CleanColon()
    ensures Clean(":abc") == "abc"
  {
    var t := ":abc";
    assert SkipLeading(t, Spaces, 0, 4) == 0 && SkipTrailing(t, Spaces, 0, 4) == 4;
    assert SkipLeading(t, Chars({':'}), 1, 4) == 1;
    assert SkipLeading(t, Chars({':'}), 0, 4) == 1;
    assert SkipLeading(t, Spaces, 1, 4) == 1 && SkipLeading(t, Chars({'-'}), 1, 4) == 1;
    assert SkipLeading(t, Chars({EmDash}), 1, 4) == 1;
    assert SkipTrailing(t, Spaces, 1, 4) == 4;
    assert TrimBounds(t) == (1, 4);
    assert Clean(t) == t[1..4] == "abc";
  }

  /** Cleaning is not idempotent: one pass turns "-:abc" into ":abc", a second into "abc". */
  lemma CleanNotIdempotent()
    ensures Clean("-:abc") == ":abc"
    ensures Clean(Clean("-:abc")) == "abc"
    ensures Clean(Clean("-:abc")) != Clean("-:abc")
  {
    CleanDashColon();
    CleanColon();
  }
}
