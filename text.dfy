/** Character classes and string utilities shared by the answer-assembly logic:
    ASCII lower-casing, substring containment (Python's `k in text`),
    `str.strip`/`lstrip`, the word runs that `\b...\b` regular expressions
    match, `str.join`/`str.split`, and decimal rendering of numbers. */
module Text {

  /** Python's `None` or a value. */
  datatype Option<T> = None | Some(value: T)

  // ---------------------------------------------------------------------------
  // Characters
  // ---------------------------------------------------------------------------

  predicate IsDigit(c: char) { '0' <= c <= '9' }

  predicate IsUpper(c: char) { 'A' <= c <= 'Z' }

  predicate IsLower(c: char) { 'a' <= c <= 'z' }

  /** `\w` in a regular expression, restricted to ASCII: letters, digits and `_`. */
  predicate IsWordChar(c: char) { IsLower(c) || IsUpper(c) || IsDigit(c) || c == '_' }

  /** The characters Python's `str.isspace` accepts, which an argument-less
      `str.strip()` removes. */
  predicate IsSpace(c: char) {
    || '\t' <= c <= '\r'
    || '\U{1C}' <= c <= ' '
    || c == '\U{85}' || c == '\U{A0}' || c == '\U{1680}'
    || '\U{2000}' <= c <= '\U{200A}'
    || c == '\U{2028}' || c == '\U{2029}' || c == '\U{202F}' || c == '\U{205F}' || c == '\U{3000}'
  }

  /** The argument of `strip`/`lstrip`/`rstrip`: none (whitespace) or a string of characters. */
  datatype StripSet = Spaces | Chars(cs: set<char>)

  predicate InStripSet(c: char, k: StripSet) {
    match k
    case Spaces => IsSpace(c)
    case Chars(cs) => c in cs
  }

  function LowerChar(c: char): (r: char)
    ensures IsUpper(c) ==> IsLower(r) && r as int == c as int + 32
    ensures !IsUpper(c) ==> r == c
  {
    if IsUpper(c) then (c as int + 32) as char else c
  }

  function UpperChar(c: char): (r: char)
    ensures IsLower(c) ==> IsUpper(r) && r as int == c as int - 32
    ensures !IsLower(c) ==> r == c
  {
    if IsLower(c) then (c as int - 32) as char else c
  }

  // ---------------------------------------------------------------------------
  // Lower-casing
  // ---------------------------------------------------------------------------

  /** `str.lower()`, restricted to ASCII letters. */
  function Lower(s: string): (r: string)
    ensures |r| == |s|
    ensures forall i :: 0 <= i < |s| ==> r[i] == LowerChar(s[i])
  {
    seq(|s|, i requires 0 <= i < |s| => LowerChar(s[i]))
  }

  /** Lower-cased text has no upper-case letter, and lower-casing it again changes nothing. */
  lemma LowerIdempotent(s: string)
    ensures forall i :: 0 <= i < |s| ==> !IsUpper(Lower(s)[i])
    ensures Lower(Lower(s)) == Lower(s)
  {
  }

  lemma LowerConcat(a: string, b: string)
    ensures Lower(a + b) == Lower(a) + Lower(b)
  {
  }

  /** `str.capitalize()`, restricted to ASCII: first character upper-case, the rest lower-case. */
  function Capitalize(s: string): (r: string)
    ensures |r| == |s|
    ensures |s| > 0 ==> r[0] == UpperChar(s[0]) && r[1..] == Lower(s[1..])
  {
    if s == [] then [] else [UpperChar(s[0])] + Lower(s[1..])
  }

  // ---------------------------------------------------------------------------
  // Substring containment
  // ---------------------------------------------------------------------------

  /** `p` occurs in `t` starting at offset `i`. */
  predicate OccursAt(t: string, p: string, i: int) {
    0 <= i && i + |p| <= |t| && t[i..i + |p|] == p
  }

  /** Python's `p in t` on strings: `p` occurs in `t` at some offset. */
  predicate Contains(t: string, p: string) {
    exists i | 0 <= i <= |t| - |p| :: OccursAt(t, p, i)
  }

  lemma ContainsAt(t: string, p: string, i: nat)
    requires OccursAt(t, p, i)
    ensures Contains(t, p)
  {
  }

  /** A string occurring in `a` also occurs in any string `a` is a part of. */
  lemma ContainsInContext(a: string, p: string, x: string, y: string)
    requires Contains(a, p)
    ensures Contains(x + a + y, p)
  {
    var i :| 0 <= i <= |a| - |p| && OccursAt(a, p, i);
    var t := x + a + y;
    assert t[|x| + i..|x| + i + |p|] == a[i..i + |p|];
    ContainsAt(t, p, |x| + i);
  }

  /** A text containing `p + q` contains `q`. */
  lemma ContainsRight(t: string, p: string, q: string)
    requires Contains(t, p + q)
    ensures Contains(t, q)
  {
    var i :| 0 <= i <= |t| - |p + q| && OccursAt(t, p + q, i);
    assert t[i + |p|..i + |p| + |q|] == t[i..i + |p + q|][|p|..];
    ContainsAt(t, q, i + |p|);
  }

  // ---------------------------------------------------------------------------
  // Stripping
  // ---------------------------------------------------------------------------

  /** The first index in `[i, e)` whose character is not in `cs`, or `e`: where
      `s[i..e].lstrip(cs)` starts. */
  function SkipLeading(s: string, cs: StripSet, i: nat, e: nat): (j: nat)
    requires i <= e <= |s|
    ensures i <= j <= e
    ensures j == e || !InStripSet(s[j], cs)
    decreases e - i
  {
    if i < e && InStripSet(s[i], cs) then SkipLeading(s, cs, i + 1, e) else i
  }

  /** The end of `s[i..j]` once its trailing characters in `cs` are dropped: where
      `s[i..j].rstrip(cs)` ends. */
  function SkipTrailing(s: string, cs: StripSet, i: nat, j: nat): (e: nat)
    requires i <= j <= |s|
    ensures i <= e <= j
    ensures e == i || !InStripSet(s[e - 1], cs)
    decreases j - i
  {
    if i < j && InStripSet(s[j - 1], cs) then SkipTrailing(s, cs, i, j - 1) else j
  }

  /** Everything `lstrip` skips is in the strip set. */
  lemma {:induction false} SkipLeadingSkips(s: string, cs: StripSet, i: nat, e: nat)
    requires i <= e <= |s|
    ensures forall k :: i <= k < SkipLeading(s, cs, i, e) ==> InStripSet(s[k], cs)
    decreases e - i
  {
    if i < e && InStripSet(s[i], cs) {
      SkipLeadingSkips(s, cs, i + 1, e);
    }
  }

  /** Everything `rstrip` drops is in the strip set. */
  lemma {:induction false} SkipTrailingSkips(s: string, cs: StripSet, i: nat, j: nat)
    requires i <= j <= |s|
    ensures forall k :: SkipTrailing(s, cs, i, j) <= k < j ==> InStripSet(s[k], cs)
    decreases j - i
  {
    if i < j && InStripSet(s[j - 1], cs) {
      SkipTrailingSkips(s, cs, i, j - 1);
    }
  }

  /** `lstrip` stops at the first character outside the strip set. */
  lemma {:induction false} SkipLeadingTo(s: string, cs: StripSet, i: nat, m: nat, e: nat)
    requires i <= m <= e <= |s|
    requires forall k :: i <= k < m ==> InStripSet(s[k], cs)
    requires m == e || !InStripSet(s[m], cs)
    ensures SkipLeading(s, cs, i, e) == m
    decreases m - i
  {
    if i < m {
      SkipLeadingTo(s, cs, i + 1, m, e);
    }
  }

  /** `rstrip` stops after the last character outside the strip set. */
  lemma {:induction false} SkipTrailingTo(s: string, cs: StripSet, i: nat, m: nat, j: nat)
    requires i <= m <= j <= |s|
    requires forall k :: m <= k < j ==> InStripSet(s[k], cs)
    requires m == i || !InStripSet(s[m - 1], cs)
    ensures SkipTrailing(s, cs, i, j) == m
    decreases j - m
  {
    if m < j {
      SkipTrailingTo(s, cs, i, m, j - 1);
    }
  }

  // ---------------------------------------------------------------------------
  // Words: the maximal runs of word characters
  // ---------------------------------------------------------------------------

  predicate AllDigits(w: string) { forall i :: 0 <= i < |w| ==> IsDigit(w[i]) }

  /** `s[a..b]` is a whole word: a non-empty run of word characters with a
      non-word character or an end of `s` on each side (what `\b\w+\b` matches). */
  predicate IsWordAt(s: string, a: int, b: int) {
    && 0 <= a < b <= |s|
    && (a == 0 || !IsWordChar(s[a - 1]))
    && (b == |s| || !IsWordChar(s[b]))
    && forall k :: a <= k < b ==> IsWordChar(s[k])
  }

  /** The end of the run of word characters that starts at `i`. */
  function RunEnd(s: string, i: nat): (j: nat)
    requires i <= |s|
    ensures i <= j <= |s|
    ensures forall k :: i <= k < j ==> IsWordChar(s[k])
    ensures j == |s| || !IsWordChar(s[j])
    decreases |s| - i
  {
    if i == |s| || !IsWordChar(s[i]) then i else RunEnd(s, i + 1)
  }

  function WordsFrom(s: string, i: nat): seq<string>
    requires i <= |s|
    decreases |s| - i
  {
    if i == |s| then []
    else if !IsWordChar(s[i]) then WordsFrom(s, i + 1)
    else
      var j := RunEnd(s, i);
      [s[i..j]] + WordsFrom(s, j)
  }

  /** The words of `s`, left to right. */
  function Words(s: string): seq<string> {
    WordsFrom(s, 0)
  }

  lemma {:induction false} WordInWordsFrom(s: string, i: nat, a: int, b: int)
    requires i <= a && IsWordAt(s, a, b)
    ensures s[a..b] in WordsFrom(s, i)
    decreases |s| - i
  {
    if i == a {
      var j := RunEnd(s, i);
      assert j == b;
    } else if !IsWordChar(s[i]) {
      WordInWordsFrom(s, i + 1, a, b);
    } else {
      var j := RunEnd(s, i);
      assert j < a by {
        assert !IsWordChar(s[a - 1]);
      }
      WordInWordsFrom(s, j, a, b);
    }
  }

  lemma {:induction false} WordsFromAreWords(s: string, i: nat)
    requires i <= |s|
    requires i == 0 || i == |s| || !IsWordChar(s[i - 1]) || !IsWordChar(s[i])
    ensures forall w :: w in WordsFrom(s, i) ==> exists a, b :: i <= a && IsWordAt(s, a, b) && w == s[a..b]
    decreases |s| - i
  {
    if i == |s| {
    } else if !IsWordChar(s[i]) {
      WordsFromAreWords(s, i + 1);
    } else {
      var j := RunEnd(s, i);
      WordsFromAreWords(s, j);
      assert IsWordAt(s, i, j);
    }
  }

  /** `Words(s)` holds exactly the whole words of `s`. */
  lemma WordsExactly(s: string, w: string)
    ensures w in Words(s) <==> exists a, b :: IsWordAt(s, a, b) && w == s[a..b]
  {
    if w in Words(s) {
      WordsFromAreWords(s, 0);
    }
    if exists a, b :: IsWordAt(s, a, b) && w == s[a..b] {
      var a, b :| IsWordAt(s, a, b) && w == s[a..b];
      WordInWordsFrom(s, 0, a, b);
    }
  }

  // ---------------------------------------------------------------------------
  // Joining and splitting
  // ---------------------------------------------------------------------------

  /** `sep.join(parts)`. */
  function Join(parts: seq<string>, sep: string): string
    decreases |parts|
  {
    if |parts| == 0 then ""
    else if |parts| == 1 then parts[0]
    else parts[0] + sep + Join(parts[1..], sep)
  }

  /** Every part is a substring of the joined text. */
  lemma {:induction false} JoinContainsParts(parts: seq<string>, sep: string, k: nat)
    requires k < |parts|
    ensures Contains(Join(parts, sep), parts[k])
    decreases |parts|
  {
    ContainsAt(parts[k], parts[k], 0);
    if |parts| == 1 {
    } else if k == 0 {
      assert Join(parts, sep) == "" + parts[0] + (sep + Join(parts[1..], sep));
      ContainsInContext(parts[0], parts[0], "", sep + Join(parts[1..], sep));
    } else {
      JoinContainsParts(parts[1..], sep, k - 1);
      assert Join(parts, sep) == (parts[0] + sep) + Join(parts[1..], sep) + "";
      ContainsInContext(Join(parts[1..], sep), parts[k], parts[0] + sep, "");
    }
  }

  /** Every part at once. */
  lemma JoinContainsAll(parts: seq<string>, sep: string)
    ensures forall k :: 0 <= k < |parts| ==> Contains(Join(parts, sep), parts[k])
  {
    forall k | 0 <= k < |parts| ensures Contains(Join(parts, sep), parts[k]) {
      JoinContainsParts(parts, sep, k);
    }
  }

  function IndexOf(s: string, c: char): (k: nat)
    requires c in s
    ensures k < |s| && s[k] == c
    ensures forall i :: 0 <= i < k ==> s[i] != c
  {
    if s[0] == c then 0 else 1 + IndexOf(s[1..], c)
  }

  lemma {:induction false} IndexOfAfter(p: string, c: char, rest: string)
    requires c !in p
    ensures c in p + [c] + rest && IndexOf(p + [c] + rest, c) == |p|
  {
    var s := p + [c] + rest;
    assert s[|p|] == c;
    if p != [] {
      assert s[1..] == p[1..] + [c] + rest;
      IndexOfAfter(p[1..], c, rest);
    }
  }

  /** `s.split(c)` for a one-character separator. */
  function SplitOn(s: string, c: char): (r: seq<string>)
    ensures |r| >= 1
    decreases |s|
  {
    if c !in s then [s]
    else
      var k := IndexOf(s, c);
      [s[..k]] + SplitOn(s[k + 1..], c)
  }

  /** Splitting on `c` undoes joining with `c` when no part contains `c`. */
  lemma {:induction false} SplitJoin(parts: seq<string>, c: char)
    requires |parts| >= 1
    requires forall p :: p in parts ==> c !in p
    ensures SplitOn(Join(parts, [c]), c) == parts
    decreases |parts|
  {
    if |parts| > 1 {
      var s := Join(parts, [c]);
      assert s == parts[0] + [c] + Join(parts[1..], [c]);
      assert s[|parts[0]|] == c;
      IndexOfAfter(parts[0], c, Join(parts[1..], [c]));
      var k := IndexOf(s, c);
      assert s[..k] == parts[0];
      assert s[k + 1..] == Join(parts[1..], [c]);
      SplitJoin(parts[1..], c);
      assert parts == [parts[0]] + parts[1..];
    }
  }

  // ---------------------------------------------------------------------------
  // Decimal numbers
  // ---------------------------------------------------------------------------

  function DigitChar(d: nat): (c: char)
    requires d < 10
    ensures IsDigit(c)
  {
    ('0' as int + d) as char
  }

  /** `str(n)` for a natural number. */
  function NatToString(n: nat): (s: string)
    ensures |s| >= 1 && AllDigits(s)
  {
    if n < 10 then [DigitChar(n)] else NatToString(n / 10) + [DigitChar(n % 10)]
  }

  /** `int(s)` for a string of decimal digits. */
  function ParseNat(s: string): nat
    requires AllDigits(s)
  {
    if s == [] then 0 else 10 * ParseNat(s[..|s| - 1]) + (s[|s| - 1] as int - '0' as int)
  }

  lemma {:induction false} ParseNatToString(n: nat)
    ensures ParseNat(NatToString(n)) == n
  {
    if n >= 10 {
      var s := NatToString(n);
      assert s[..|s| - 1] == NatToString(n / 10);
      ParseNatToString(n / 10);
    }
  }
}
