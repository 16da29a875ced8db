/** Retrieval after the similarity search: the keyword boost (`_keyword_boost`) and the
    ranking and truncation done by `RAGEngine._retrieve` (src/chatbot/rag_engine.py).
    The search itself is foreign; its outcome is an input. */
module Retrieval {
  import opened Text
  import opened Documents

  /** A candidate `(Document, score, idx)`. */
  datatype Ranked = Ranked(doc: Doc, score: real, idx: int)

  /** What the search call produced: scored hits, or, when it raised, the documents the
      plain retriever returned instead. */
  datatype SearchOutcome = Scored(hits: seq<(Doc, real)>) | Failed(docs: seq<Doc>)

  /** The most passages handed to the model. */
  const MaxContext: int := 4

  /** The number of hits the search is asked for: `max(settings.top_k, 8)`. */
  function SearchK(topK: int): (k: int)
    ensures k >= 8 && k >= topK
    ensures k == 8 || k == topK
  {
    if topK > 8 then topK else 8
  }

  /** The documents of a search outcome, in the order the search returned them. */
  function DocsOf(outcome: SearchOutcome): seq<Doc> {
    match outcome
    case Scored(hits) => seq(|hits|, i requires 0 <= i < |hits| => hits[i].0)
    case Failed(docs) => docs
  }

  /** `[(d, s, i) for i, (d, s) in enumerate(...)]`, or `(d, 0.0, i)` after a failed search. */
  function Enumerated(outcome: SearchOutcome): (r: seq<Ranked>)
    ensures |r| == |DocsOf(outcome)|
    ensures forall i :: 0 <= i < |r| ==> r[i].doc == DocsOf(outcome)[i] && r[i].idx == i
  {
    match outcome
    case Scored(hits) => seq(|hits|, i requires 0 <= i < |hits| => Ranked(hits[i].0, hits[i].1, i))
    case Failed(docs) => seq(|docs|, i requires 0 <= i < |docs| => Ranked(docs[i], 0.0, i))
  }

  // ---------------------------------------------------------------------------
  // Keyword boost
  // ---------------------------------------------------------------------------

  /** `set(re.findall(r'\b(?:\d+|\w{4,})\b', query.lower()))`: the whole words of the
      lower-cased query that are all digits or at least four characters long. */
  function QueryTokens(query: string): (tokens: set<string>)
    ensures forall t :: t in tokens ==> t != "" && (AllDigits(t) || |t| >= 4)
  {
    var q := Lower(query);
    WordsFromAreWords(q, 0);
    set w | w in Words(q) && (AllDigits(w) || |w| >= 4)
  }

  /** A token is exactly a whole word of the lower-cased query that is all digits or has at
      least four characters. */
  lemma QueryTokensExactly(query: string, t: string)
    ensures t in QueryTokens(query) <==>
            (AllDigits(t) || |t| >= 4) && exists a, b :: IsWordAt(Lower(query), a, b) && t == Lower(query)[a..b]
  {
    WordsExactly(Lower(query), t);
  }

  predicate HasOverlap(tokens: set<string>, r: Ranked) {
    exists t | t in tokens :: Contains(Lower(r.doc.content), t)
  }

  /** The sort key: `idx - 0.5` for a candidate whose text contains a query token, else `idx`. */
  function BoostKey(tokens: set<string>, r: Ranked): (key: real)
    ensures r.idx as real - 0.5 <= key <= r.idx as real
  {
    if HasOverlap(tokens, r) then r.idx as real - 0.5 else r.idx as real
  }

  predicate SortedByKey(tokens: set<string>, s: seq<Ranked>) {
    forall i, j :: 0 <= i < j < |s| ==> BoostKey(tokens, s[i]) <= BoostKey(tokens, s[j])
  }

  /** Put `x` before the first element whose key is not smaller than its own. */
  function InsertByKey(tokens: set<string>, x: Ranked, s: seq<Ranked>): (r: seq<Ranked>)
    ensures multiset(r) == multiset(s) + multiset{x}
    decreases |s|
  {
    if s == [] || BoostKey(tokens, x) <= BoostKey(tokens, s[0]) then [x] + s
    else
      assert s == [s[0]] + s[1..];
      [s[0]] + InsertByKey(tokens, x, s[1..])
  }

  /** Python's stable `list.sort(key=...)` by `BoostKey`: each element, front to back, goes
      in front of every later element with an equal or larger key. */
  function SortByKey(tokens: set<string>, s: seq<Ranked>): (r: seq<Ranked>)
    ensures multiset(r) == multiset(s)
    decreases |s|
  {
    if s == [] then []
    else
      assert s == [s[0]] + s[1..];
      InsertByKey(tokens, s[0], SortByKey(tokens, s[1..]))
  }

  /** `_keyword_boost(query, ranked)`. */
  function KeywordBoost(query: string, ranked: seq<Ranked>): (r: seq<Ranked>)
    ensures multiset(r) == multiset(ranked) && |r| == |ranked|
  {
    var r := SortByKey(QueryTokens(query), ranked);
    assert |r| == |multiset(r)| == |multiset(ranked)| == |ranked|;
    r
  }

  /** The elements of `s` whose key is `v`, in order. */
  function WithKey(tokens: set<string>, s: seq<Ranked>, v: real): seq<Ranked>
    decreases |s|
  {
    if s == [] then []
    else (if BoostKey(tokens, s[0]) == v then [s[0]] else []) + WithKey(tokens, s[1..], v)
  }

  lemma {:induction false} InsertSorted(tokens: set<string>, x: Ranked, s: seq<Ranked>)
    requires SortedByKey(tokens, s)
    ensures SortedByKey(tokens, InsertByKey(tokens, x, s))
    ensures InsertByKey(tokens, x, s) != [] &&
            (InsertByKey(tokens, x, s)[0] == x || (s != [] && InsertByKey(tokens, x, s)[0] == s[0]))
    decreases |s|
  {
    if s != [] && BoostKey(tokens, x) > BoostKey(tokens, s[0]) {
      InsertSorted(tokens, x, s[1..]);
    }
  }

  lemma {:induction false} InsertWithKey(tokens: set<string>, x: Ranked, s: seq<Ranked>, v: real)
    ensures WithKey(tokens, InsertByKey(tokens, x, s), v) ==
            (if BoostKey(tokens, x) == v then [x] else []) + WithKey(tokens, s, v)
    decreases |s|
  {
    if s != [] && BoostKey(tokens, x) > BoostKey(tokens, s[0]) {
      InsertWithKey(tokens, x, s[1..], v);
      var r := InsertByKey(tokens, x, s);
      var head := if BoostKey(tokens, s[0]) == v then [s[0]] else [];
      assert r == [s[0]] + InsertByKey(tokens, x, s[1..]);
      assert r[0] == s[0] && r[1..] == InsertByKey(tokens, x, s[1..]);
      assert WithKey(tokens, r, v) == head + WithKey(tokens, r[1..], v);
      assert WithKey(tokens, s, v) == head + WithKey(tokens, s[1..], v);
      if BoostKey(tokens, x) == v {
        assert head == [];
      }
    } else {
      var r := [x] + s;
      assert r[1..] == s;
    }
  }

  /** The boost sorts candidates by key. */
  lemma {:induction false} SortByKeySorted(tokens: set<string>, s: seq<Ranked>)
    ensures SortedByKey(tokens, SortByKey(tokens, s))
    decreases |s|
  {
    if s != [] {
      SortByKeySorted(tokens, s[1..]);
      InsertSorted(tokens, s[0], SortByKey(tokens, s[1..]));
    }
  }

  /** The sort is stable: the candidates sharing any one key keep their relative order. */
  lemma {:induction false} SortByKeyStable(tokens: set<string>, s: seq<Ranked>, v: real)
    ensures WithKey(tokens, SortByKey(tokens, s), v) == WithKey(tokens, s, v)
    decreases |s|
  {
    if s != [] {
      SortByKeyStable(tokens, s[1..], v);
      InsertWithKey(tokens, s[0], SortByKey(tokens, s[1..]), v);
    }
  }

  /** Sorting an already sorted sequence changes nothing. */
  lemma {:induction false} SortByKeyOfSorted(tokens: set<string>, s: seq<Ranked>)
    requires SortedByKey(tokens, s)
    ensures SortByKey(tokens, s) == s
    decreases |s|
  {
    if s != [] {
      SortByKeyOfSorted(tokens, s[1..]);
      assert s == [s[0]] + s[1..];
    }
  }

  predicate IncreasingIdx(s: seq<Ranked>) {
    forall i, j :: 0 <= i < j < |s| ==> s[i].idx < s[j].idx
  }

  /** With strictly increasing integer indexes every key lies in `(idx - 1, idx]`, so the keys
      are already in order and the boost never moves a candidate. */
  lemma KeywordBoostKeepsOrder(query: string, ranked: seq<Ranked>)
    requires IncreasingIdx(ranked)
    ensures KeywordBoost(query, ranked) == ranked
  {
    var tokens := QueryTokens(query);
    forall i, j | 0 <= i < j < |ranked|
      ensures BoostKey(tokens, ranked[i]) <= BoostKey(tokens, ranked[j])
    {
      assert ranked[i].idx + 1 <= ranked[j].idx;
    }
    SortByKeyOfSorted(tokens, ranked);
  }

  // ---------------------------------------------------------------------------
  // Retrieval
  // ---------------------------------------------------------------------------

  /** Python's `s[:n]`: a negative `n` counts from the end. */
  function PyPrefix<T>(s: seq<T>, n: int): (r: seq<T>)
    ensures r <= s
    ensures n >= 0 ==> |r| <= n && (n <= |s| ==> |r| == n)
  {
    if n >= 0 then s[..if n <= |s| then n else |s|]
    else s[..if |s| + n >= 0 then |s| + n else 0]
  }

  function Min(a: int, b: int): int { if a <= b then a else b }

  /** The documents of a ranked list, in order. */
  function Docs(s: seq<Ranked>): (r: seq<Doc>)
    ensures |r| == |s| && forall i :: 0 <= i < |s| ==> r[i] == s[i].doc
  {
    seq(|s|, i requires 0 <= i < |s| => s[i].doc)
  }

  /** The post-search part of `_retrieve`: enumerate, boost, keep `min(top_k, 4)`. */
  function Retrieve(query: string, outcome: SearchOutcome, topK: int): (r: seq<Doc>)
    ensures |r| <= |DocsOf(outcome)|
    ensures topK >= 0 ==> |r| <= MaxContext
  {
    var ranked := KeywordBoost(query, Enumerated(outcome));
    Docs(PyPrefix(ranked, Min(topK, MaxContext)))
  }

  lemma DocsOfPyPrefix(s: seq<Ranked>, n: int)
    ensures Docs(PyPrefix(s, n)) == PyPrefix(Docs(s), n)
  {
    var l := Docs(PyPrefix(s, n));
    var r := PyPrefix(Docs(s), n);
    assert |l| == |r|;
    forall i | 0 <= i < |l| ensures l[i] == r[i] {
      assert PyPrefix(s, n)[i] == s[i];
    }
  }

  lemma EnumeratedDocs(outcome: SearchOutcome)
    ensures Docs(Enumerated(outcome)) == DocsOf(outcome)
  {
  }

  /** Python's `s[:n]` for `0 <= n` keeps `min(n, len(s))` items; for `n < 0` it drops the
      last `-n` (or everything). */
  lemma PyPrefixCases<T>(s: seq<T>, n: int)
    ensures n >= 0 ==> PyPrefix(s, n) == s[..Min(|s|, n)] && |PyPrefix(s, n)| <= n
    ensures n < 0 ==> PyPrefix(s, n) == s[..if |s| + n >= 0 then |s| + n else 0]
  {
  }

  /** What retrieval comes to: the first `min(top_k, 4)` search results, in search order. */
  function TopDocs(outcome: SearchOutcome, topK: int): (r: seq<Doc>)
    ensures r <= DocsOf(outcome)
    ensures topK >= 0 ==> |r| <= MaxContext
    ensures 0 <= topK && MaxContext <= |DocsOf(outcome)| ==> |r| == Min(topK, MaxContext)
  {
    PyPrefix(DocsOf(outcome), Min(topK, MaxContext))
  }

  /** Retrieval returns the search's documents in the order found, cut to `min(top_k, 4)`
      with Python's slicing: at most four, and with a negative `top_k` the last `-top_k`
      are dropped instead. */
  lemma RetrieveIsPrefix(query: string, outcome: SearchOutcome, topK: int)
    ensures Retrieve(query, outcome, topK) == TopDocs(outcome, topK)
    ensures topK >= 0 ==> |Retrieve(query, outcome, topK)| <= MaxContext
    ensures topK >= 0 ==>
      Retrieve(query, outcome, topK) == DocsOf(outcome)[..Min(|DocsOf(outcome)|, Min(topK, MaxContext))]
    ensures topK < 0 ==>
      Retrieve(query, outcome, topK) == DocsOf(outcome)[..if |DocsOf(outcome)| + topK >= 0 then |DocsOf(outcome)| + topK else 0]
  {
    var ranked := Enumerated(outcome);
    KeywordBoostKeepsOrder(query, ranked);
    DocsOfPyPrefix(ranked, Min(topK, MaxContext));
    EnumeratedDocs(outcome);
    PyPrefixCases(DocsOf(outcome), Min(topK, MaxContext));
  }
}
