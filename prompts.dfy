/** The text handed to the language model (src/chatbot/rag_engine.py): the
    conversation rendering `_format_history`, the intent test
    `_is_property_related`, and the numbered context block of `qa_with_history`. */
module Prompts {
  import opened Text
  import opened Documents

  datatype Role = User | Assistant

  /** One history entry `{"role": ..., "content": ...}`. */
  datatype Message = Message(role: Role, content: string)

  /** The `role` string stored in an entry. */
  function RoleName(r: Role): string {
    match r
    case User => "user"
    case Assistant => "assistant"
  }

  /** `m['role'].capitalize()`. */
  function RoleLabel(r: Role): (tag: string)
    ensures tag == (if r == User then "User" else "Assistant")
  {
    var name := RoleName(r);
    assert name[1..] == if r == User then "ser" else "ssistant";
    Capitalize(name)
  }

  // ---------------------------------------------------------------------------
  // _format_history
  // ---------------------------------------------------------------------------

  function HistoryLine(m: Message): string {
    RoleLabel(m.role) + ": " + m.content
  }

  function HistoryLines(h: seq<Message>): (ls: seq<string>)
    ensures |ls| == |h| && forall i :: 0 <= i < |h| ==> ls[i] == HistoryLine(h[i])
  {
    seq(|h|, i requires 0 <= i < |h| => HistoryLine(h[i]))
  }

  /** `_format_history(messages)`: one `Role: content` line per entry. Every entry's
      line appears in the rendering, whatever the entries contain. */
  function FormatHistory(h: seq<Message>): (text: string)
    ensures forall i :: 0 <= i < |h| ==> Contains(text, HistoryLine(h[i]))
  {
    var ls := HistoryLines(h);
    JoinContainsAll(ls, "\n");
    Join(ls, "\n")
  }

  /** Reads one rendered line back into an entry. */
  function ParseLine(line: string): Option<Message> {
    if |line| >= 6 && line[..6] == "User: " then Some(Message(User, line[6..]))
    else if |line| >= 11 && line[..11] == "Assistant: " then Some(Message(Assistant, line[11..]))
    else None
  }

  function ParseLines(ls: seq<string>): Option<seq<Message>>
    decreases |ls|
  {
    if ls == [] then Some([])
    else
      var head := ParseLine(ls[0]);
      var rest := ParseLines(ls[1..]);
      if head.Some? && rest.Some? then Some([head.value] + rest.value) else None
  }

  /** Reads a rendered conversation back into its entries. */
  function ParseHistory(text: string): Option<seq<Message>> {
    if text == "" then Some([]) else ParseLines(SplitOn(text, '\n'))
  }

  predicate SingleLine(m: Message) {
    '\n' !in m.content
  }

  lemma ParseHistoryLine(m: Message)
    ensures ParseLine(HistoryLine(m)) == Some(m)
  {
    var line := HistoryLine(m);
    if m.role == User {
      assert line[..6] == "User: " && line[6..] == m.content;
    } else {
      assert line[..6] != "User: " by { assert line[0] == 'A'; }
      assert line[..11] == "Assistant: " && line[11..] == m.content;
    }
  }

  /** Lines that each read back as the matching entry read back as the whole list. */
  lemma {:induction false} ParseLinesOf(ls: seq<string>, h: seq<Message>)
    requires |ls| == |h|
    requires forall i :: 0 <= i < |ls| ==> ParseLine(ls[i]) == Some(h[i])
    ensures ParseLines(ls) == Some(h)
    decreases |ls|
  {
    if ls != [] {
      assert ParseLine(ls[0]) == Some(h[0]);
      ParseLinesOf(ls[1..], h[1..]);
      assert h == [h[0]] + h[1..];
    }
  }

  lemma ParseHistoryLines(h: seq<Message>)
    ensures ParseLines(HistoryLines(h)) == Some(h)
  {
    var ls := HistoryLines(h);
    forall i | 0 <= i < |ls| ensures ParseLine(ls[i]) == Some(h[i]) {
      ParseHistoryLine(h[i]);
    }
    ParseLinesOf(ls, h);
  }

  lemma SingleLineHistoryLine(m: Message)
    requires SingleLine(m)
    ensures '\n' !in HistoryLine(m)
  {
    var tag := RoleLabel(m.role);
    assert HistoryLine(m) == tag + ": " + m.content;
  }

  lemma JoinStartsWithFirst(parts: seq<string>, sep: string)
    requires |parts| >= 1
    ensures |Join(parts, sep)| >= |parts[0]|
  {
  }

  /** The rendered conversation loses nothing: entries whose content is one line are
      read back exactly, in order, one line per entry. */
  lemma FormatHistoryRoundTrip(h: seq<Message>)
    requires forall i :: 0 <= i < |h| ==> SingleLine(h[i])
    ensures ParseHistory(FormatHistory(h)) == Some(h)
    ensures h != [] ==> SplitOn(FormatHistory(h), '\n') == HistoryLines(h)
  {
    var ls := HistoryLines(h);
    ParseHistoryLines(h);
    if h != [] {
      forall l | l in ls ensures '\n' !in l {
        var i :| 0 <= i < |ls| && ls[i] == l;
        SingleLineHistoryLine(h[i]);
      }
      SplitJoin(ls, '\n');
      JoinStartsWithFirst(ls, "\n");
      assert |ls[0]| > 0;
    }
  }

  // ---------------------------------------------------------------------------
  // _is_property_related
  // ---------------------------------------------------------------------------

  /** The phrases that switch a query into document-answering mode. */
  const PropertyKeywords: set<string> := {
    "rent", "lease", "leasing", "payment", "pay", "late", "grace", "maintenance",
    "work order", "repair", "unit", "apartment", "policy", "screening", "pet",
    "deposit", "move-in", "move in", "move-out", "move out", "renewal", "yottareal",
    "adara", "community", "hoa", "notice", "eviction", "fee", "utilities",
    "parking", "amenities", "resident", "tenant", "application"
  }

  /** `any(k in query.lower() for k in PROPERTY_KEYWORDS)`. */
  predicate IsPropertyRelated(query: string) {
    exists k | k in PropertyKeywords :: Contains(Lower(query), k)
  }

  /** A query stays property-related whatever text surrounds it. */
  lemma PropertyRelatedInContext(q: string, x: string, y: string)
    requires IsPropertyRelated(q)
    ensures IsPropertyRelated(x + q + y)
  {
    var k :| k in PropertyKeywords && Contains(Lower(q), k);
    LowerConcat(x + q, y);
    LowerConcat(x, q);
    ContainsInContext(Lower(q), k, Lower(x), Lower(y));
  }

  /** The test ignores the case of the query. */
  lemma PropertyRelatedIgnoresCase(q: string)
    ensures IsPropertyRelated(Lower(q)) <==> IsPropertyRelated(q)
  {
    LowerIdempotent(q);
  }

  /** Keywords match as substrings, not words: "current" counts through "rent". */
  lemma SubstringKeywordMatch()
    ensures IsPropertyRelated("current")
  {
    var q := Lower("current");
    assert q == "current";
    assert q[3..7] == "rent";
    ContainsAt(q, "rent", 3);
  }

  // ---------------------------------------------------------------------------
  // The context block
  // ---------------------------------------------------------------------------

  /** `f"[{i+1}] {d.page_content}"`. */
  function ContextEntry(i: nat, d: Doc): string {
    "[" + NatToString(i + 1) + "] " + d.content
  }

  function ContextEntries(docs: seq<Doc>): (es: seq<string>)
    ensures |es| == |docs| && forall i :: 0 <= i < |docs| ==> es[i] == ContextEntry(i, docs[i])
  {
    seq(|docs|, i requires 0 <= i < |docs| => ContextEntry(i, docs[i]))
  }

  /** The passages, numbered from 1, separated by blank lines. */
  function ContextBlock(docs: seq<Doc>): (block: string)
    ensures forall k :: 0 <= k < |docs| ==> Contains(block, ContextEntry(k, docs[k]))
  {
    JoinContainsAll(ContextEntries(docs), "\n\n");
    Join(ContextEntries(docs), "\n\n")
  }

  /** Reads `N] text` back into the number `N` and the text. */
  function ParseLabel(rest: string): Option<(nat, string)> {
    if ']' in rest then
      var k := IndexOf(rest, ']');
      if AllDigits(rest[..k]) && k + 2 <= |rest| && rest[k + 1] == ' ' then
        Some((ParseNat(rest[..k]), rest[k + 2..]))
      else None
    else None
  }

  /** Reads the number and the text back out of a context entry. */
  function ParseEntry(e: string): Option<(nat, string)> {
    if |e| >= 1 && e[0] == '[' then ParseLabel(e[1..]) else None
  }

  lemma DigitsHaveNoBracket(n: string)
    requires AllDigits(n)
    ensures ']' !in n
  {
    forall j | 0 <= j < |n| ensures n[j] != ']' {
      assert IsDigit(n[j]);
    }
  }

  lemma ParseLabelOf(n: string, c: string)
    requires AllDigits(n)
    ensures ParseLabel(n + [']'] + (" " + c)) == Some((ParseNat(n), c))
  {
    var rest := n + [']'] + (" " + c);
    DigitsHaveNoBracket(n);
    IndexOfAfter(n, ']', " " + c);
    assert rest[..|n|] == n;
    assert rest[|n| + 1] == ' ';
    assert rest[|n| + 2..] == c;
  }

  /** Entry `i` carries the number `i + 1` and the passage text unchanged. */
  lemma ParseContextEntry(i: nat, d: Doc)
    ensures ParseEntry(ContextEntry(i, d)) == Some((i + 1, d.content))
  {
    var n := NatToString(i + 1);
    var e := ContextEntry(i, d);
    assert e == "[" + (n + [']'] + (" " + d.content));
    assert e[1..] == n + [']'] + (" " + d.content);
    ParseLabelOf(n, d.content);
    ParseNatToString(i + 1);
  }

  /** Every retrieved passage, numbered, reaches the model. */
  lemma ContextBlockHasPassages(docs: seq<Doc>, k: nat)
    requires k < |docs|
    ensures Contains(ContextBlock(docs), ContextEntry(k, docs[k]))
    ensures Contains(ContextBlock(docs), docs[k].content)
  {
    var es := ContextEntries(docs);
    JoinContainsParts(es, "\n\n", k);
    var pre := "[" + NatToString(k + 1) + "] ";
    assert ContextEntry(k, docs[k]) == pre + docs[k].content;
    ContainsRight(ContextBlock(docs), pre, docs[k].content);
  }
}
