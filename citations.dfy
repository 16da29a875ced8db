/** The citation selector (`_select_citations` in src/chatbot/rag_engine.py):
    which retrieved passages an answer is taken to rest on. */
module Citations {
  import opened Text
  import opened Documents

  datatype Citation = Citation(id: nat, source: string)

  /** The fixed key terms counted in a passage (never looked up in the answer). */
  const KeyTerms: set<string> := {
    "grace", "period", "rent", "due", "fee", "policy", "maintenance", "lease", "leasing",
    "payment", "adar", "adara", "resident", "tenant", "community"
  }

  /** A passage qualifies when its overlap reaches this many. */
  const MinOverlap: nat := 2

  predicate Distinct(s: seq<string>) {
    forall i, j :: 0 <= i < j < |s| ==> s[i] != s[j]
  }

  /** `set(re.findall(r'\b\d+\b', ans))`: the words of `ans` made only of digits. */
  function Numbers(ans: string): (ns: set<string>)
    ensures forall n :: n in ns ==> n != "" && AllDigits(n)
  {
    WordsFromAreWords(ans, 0);
    set w | w in Words(ans) && AllDigits(w)
  }

  /** A number is extracted exactly when it stands alone as a whole word of the answer. */
  lemma NumbersExactly(ans: string, n: string)
    ensures n in Numbers(ans) <==> AllDigits(n) && exists a, b :: IsWordAt(ans, a, b) && n == ans[a..b]
  {
    WordsExactly(ans, n);
  }

  /** The answer's numbers that occur in `text`. */
  function NumbersIn(numbers: set<string>, text: string): set<string> {
    set n | n in numbers && Contains(text, n)
  }

  /** The key terms that occur in `text`. */
  function KeyTermsIn(text: string): set<string> {
    set k | k in KeyTerms && Contains(text, k)
  }

  /** The overlap score of a lower-cased passage text. */
  function Overlap(numbers: set<string>, text: string): (n: nat)
    ensures n <= |numbers| + |KeyTerms|
  {
    SubsetCard(NumbersIn(numbers, text), numbers);
    SubsetCard(KeyTermsIn(text), KeyTerms);
    |NumbersIn(numbers, text)| + |KeyTermsIn(text)|
  }

  predicate Qualifies(numbers: set<string>, d: Doc) {
    Overlap(numbers, Lower(d.content)) >= MinOverlap
  }

  /** The source recorded for a qualifying passage: `source`, else `path`, else "document". */
  function CitedSource(d: Doc): (s: string)
    ensures s != ""
  {
    if Meta(d, "source") != "" then Meta(d, "source")
    else if Meta(d, "path") != "" then Meta(d, "path")
    else "document"
  }

  /** The source cited when nothing qualifies: `source`, else "document" (no `path` step). */
  function TopSource(d: Doc): (s: string)
    ensures s != ""
  {
    if Meta(d, "source") != "" then Meta(d, "source") else "document"
  }

  /** The sources the selection loop collects from `docs`, in order: each qualifying
      passage adds its source unless an earlier one already did. */
  function Selected(numbers: set<string>, docs: seq<Doc>): (r: seq<string>)
    ensures |r| <= |docs|
    ensures forall s :: s in r ==> s != ""
    decreases |docs|
  {
    if docs == [] then []
    else
      var prev := Selected(numbers, docs[..|docs| - 1]);
      var d := docs[|docs| - 1];
      if Qualifies(numbers, d) && CitedSource(d) !in prev then prev + [CitedSource(d)] else prev
  }

  /** The cited sources before numbering: the selection, or the top passage's source
      when nothing qualified. */
  function CitationSources(answer: string, docs: seq<Doc>): (r: seq<string>)
    ensures r == [] <==> docs == []
    ensures |r| <= |docs| && Distinct(r)
    ensures forall s :: s in r ==> s != ""
  {
    var sel := Selected(Numbers(Lower(answer)), docs);
    SelectedDistinct(Numbers(Lower(answer)), docs);
    if sel == [] && docs != [] then [TopSource(docs[0])] else sel
  }

  /** `[{"id": i + 1, "source": s} for i, s in enumerate(selected)]`. */
  function Numbered(sources: seq<string>): (cs: seq<Citation>)
    ensures |cs| == |sources|
    ensures forall i :: 0 <= i < |cs| ==> cs[i].id == i + 1 && cs[i].source == sources[i]
  {
    seq(|sources|, i requires 0 <= i < |sources| => Citation(i + 1, sources[i]))
  }

  // ---------------------------------------------------------------------------
  // The selection loop
  // ---------------------------------------------------------------------------

  method SelectCitations(answerText: string, retrievedDocs: seq<Doc>) returns (citations: seq<Citation>)
    ensures citations == Numbered(CitationSources(answerText, retrievedDocs))
    ensures forall i :: 0 <= i < |citations| ==> citations[i].id == i + 1
    ensures forall i, j :: 0 <= i < j < |citations| ==> citations[i].source != citations[j].source
    ensures |citations| <= |retrievedDocs|
    ensures citations == [] <==> retrievedDocs == []
  {
    var ans := Lower(answerText);
    var numbers := Numbers(ans);
    var selected: seq<string> := [];
    var seen: set<string> := {};
    var i := 0;
    while i < |retrievedDocs|
      invariant 0 <= i <= |retrievedDocs|
      invariant selected == Selected(numbers, retrievedDocs[..i])
      invariant forall s :: s in seen <==> s in selected
    {
      var d := retrievedDocs[i];
      var text := Lower(d.content);
      var overlap := 0;
      overlap := overlap + |set n | n in numbers && Contains(text, n)|;
      overlap := overlap + |set k | k in KeyTerms && Contains(text, k)|;
      assert retrievedDocs[..i + 1][..i] == retrievedDocs[..i];
      if overlap >= MinOverlap {
        var src := CitedSource(d);
        if src !in seen {
          selected := selected + [src];
          seen := seen + {src};
        }
      }
      i := i + 1;
    }
    assert retrievedDocs[..i] == retrievedDocs;
    if selected == [] && |retrievedDocs| > 0 {
      selected := [TopSource(retrievedDocs[0])];
    }
    citations := Numbered(selected);
    CitationSourcesShape(answerText, retrievedDocs);
  }

  // ---------------------------------------------------------------------------
  // What the selection promises
  // ---------------------------------------------------------------------------

  /** No source is selected twice. */
  lemma {:induction false} SelectedDistinct(numbers: set<string>, docs: seq<Doc>)
    ensures Distinct(Selected(numbers, docs))
    decreases |docs|
  {
    if docs != [] {
      SelectedDistinct(numbers, docs[..|docs| - 1]);
    }
  }

  /** Only sources of qualifying passages are selected. */
  lemma {:induction false} SelectedSound(numbers: set<string>, docs: seq<Doc>, s: string)
    requires s in Selected(numbers, docs)
    ensures exists k :: 0 <= k < |docs| && Qualifies(numbers, docs[k]) && CitedSource(docs[k]) == s
    decreases |docs|
  {
    var init := docs[..|docs| - 1];
    if s in Selected(numbers, init) {
      SelectedSound(numbers, init, s);
      var k :| 0 <= k < |init| && Qualifies(numbers, init[k]) && CitedSource(init[k]) == s;
      assert docs[k] == init[k];
    } else {
      assert Qualifies(numbers, docs[|docs| - 1]) && CitedSource(docs[|docs| - 1]) == s;
    }
  }

  /** Every qualifying passage's source is selected. */
  lemma {:induction false} SelectedComplete(numbers: set<string>, docs: seq<Doc>, k: int)
    requires 0 <= k < |docs| && Qualifies(numbers, docs[k])
    ensures CitedSource(docs[k]) in Selected(numbers, docs)
    decreases |docs|
  {
    var init := docs[..|docs| - 1];
    if k < |docs| - 1 {
      assert init[k] == docs[k];
      SelectedComplete(numbers, init, k);
    }
  }

  /** A source is selected exactly when some passage with that source qualifies. */
  lemma SelectedMembers(numbers: set<string>, docs: seq<Doc>, s: string)
    ensures s in Selected(numbers, docs) <==>
            exists k :: 0 <= k < |docs| && Qualifies(numbers, docs[k]) && CitedSource(docs[k]) == s
  {
    if s in Selected(numbers, docs) {
      SelectedSound(numbers, docs, s);
    }
    if exists k :: 0 <= k < |docs| && Qualifies(numbers, docs[k]) && CitedSource(docs[k]) == s {
      var k :| 0 <= k < |docs| && Qualifies(numbers, docs[k]) && CitedSource(docs[k]) == s;
      SelectedComplete(numbers, docs, k);
    }
  }

  /** Selection is first-seen-wins in retrieval order: what the first `k` passages select
      is a prefix of what all of them select. */
  lemma {:induction false} SelectedPrefix(numbers: set<string>, docs: seq<Doc>, k: nat)
    requires k <= |docs|
    ensures Selected(numbers, docs[..k]) <= Selected(numbers, docs)
    decreases |docs|
  {
    if k < |docs| {
      var init := docs[..|docs| - 1];
      assert init[..k] == docs[..k];
      SelectedPrefix(numbers, init, k);
    } else {
      assert docs[..k] == docs;
    }
  }

  /** The cited sources: none exactly when nothing was retrieved, never more than the
      passages, never a repeat, and the top passage's source when nothing qualified. */
  lemma CitationSourcesShape(answer: string, docs: seq<Doc>)
    ensures var r := CitationSources(answer, docs);
      && (r == [] <==> docs == [])
      && |r| <= |docs|
      && Distinct(r)
      && (forall s :: s in r ==> s != "")
    ensures var sel := Selected(Numbers(Lower(answer)), docs);
      && (sel != [] ==> CitationSources(answer, docs) == sel)
      && (sel == [] && docs != [] ==> CitationSources(answer, docs) == [TopSource(docs[0])])
  {
    SelectedDistinct(Numbers(Lower(answer)), docs);
  }

  /** Any passage whose text mentions "adara" qualifies whatever the answer says:
      it contains both key terms "adar" and "adara". */
  lemma AdaraAlwaysQualifies(numbers: set<string>, d: Doc)
    requires Contains(Lower(d.content), "adara")
    ensures Qualifies(numbers, d)
  {
    var text := Lower(d.content);
    var i :| 0 <= i <= |text| - 5 && OccursAt(text, "adara", i);
    assert text[i..i + 4] == text[i..i + 5][..4] == "adar";
    ContainsAt(text, "adar", i);
    assert {"adar", "adara"} <= KeyTermsIn(text);
    SubsetCard({"adar", "adara"}, KeyTermsIn(text));
  }

  lemma {:induction false} SubsetCard<T>(a: set<T>, b: set<T>)
    requires a <= b
    ensures |a| <= |b|
    decreases |a|
  {
    if a != {} {
      var x :| x in a;
      SubsetCard(a - {x}, b - {x});
    }
  }
}
