/** `RAGEngine.qa_with_history` and the module-level `_SESSION_MEMORY`
    (src/chatbot/rag_engine.py): one request reads and extends one session's
    history. The similarity search and the language model are foreign: the search
    outcome and the model's reply text are inputs, and the call the engine would
    make is an output. */
module Engine {
  import opened Text
  import opened Documents
  import opened Cleaning
  import opened Citations
  import opened Retrieval
  import opened Prompts

  /** `{"answer": ..., "citations": [...]}`. */
  datatype Response = Response(answer: string, citations: seq<Citation>)

  /** The model call a request makes: the document prompt with its context block, or
      the small-talk prompt. */
  datatype ModelCall =
    | PropertyCall(history: string, question: string, context: string)
    | GeneralCall(history: string, question: string)

  /** Everything one request decides: the response, the model call (if any), and the
      session's history afterwards. */
  datatype Turn = Turn(response: Response, call: Option<ModelCall>, history: seq<Message>)

  /** The session memory: session id to history. */
  type Memory = map<string, seq<Message>>

  /** One request as the orchestration sees it, with the foreign results it gets. */
  datatype Request = Request(sessionId: string, query: string, search: SearchOutcome, reply: string)

  const ShortcutPhrase: string := "previous question"
  const NoPreviousQuestion: string := "No previous question found."

  predicate IsShortcut(query: string) {
    Contains(Lower(query), ShortcutPhrase)
  }

  /** The index of the most recent `user` entry, or -1 when there is none. */
  function LastUserIndex(h: seq<Message>): (k: int)
    ensures -1 <= k < |h|
    ensures k >= 0 ==> h[k].role == User
    ensures forall j :: k < j < |h| ==> h[j].role != User
    decreases |h|
  {
    if h == [] then -1
    else if h[|h| - 1].role == User then |h| - 1
    else
      var k := LastUserIndex(h[..|h| - 1]);
      assert forall j :: k < j < |h| - 1 ==> h[..|h| - 1][j] == h[j];
      k
  }

  /** `next((m["content"] for m in reversed(history) if m["role"] == "user"), None)`. */
  function LastUserContent(h: seq<Message>): (r: Option<string>)
    ensures r.None? <==> forall i :: 0 <= i < |h| ==> h[i].role != User
    ensures r.Some? ==> exists i :: 0 <= i < |h| && h[i].role == User && h[i].content == r.value &&
                                   forall j :: i < j < |h| ==> h[j].role != User
  {
    var k := LastUserIndex(h);
    if k < 0 then None else Some(h[k].content)
  }

  /** The shortcut reply: quote the last question, or say there is none (also when
      the last question was empty). */
  function ShortcutAnswer(h: seq<Message>): (r: string)
    ensures r != ""
    ensures r != NoPreviousQuestion ==> LastUserContent(h).Some? && LastUserContent(h).value != ""
  {
    match LastUserContent(h)
    case Some(q) => if q != "" then "The previous question you asked was: \"" + q + "\"" else NoPreviousQuestion
    case None => NoPreviousQuestion
  }

  /** `_SESSION_MEMORY.setdefault(session_id, [])` read as a value. */
  function HistoryIn(m: Memory, sessionId: string): seq<Message> {
    if sessionId in m then m[sessionId] else []
  }

  /** The turn the shortcut produces. */
  function ShortcutTurn(h: seq<Message>): Turn {
    Turn(Response(ShortcutAnswer(h), []), None, h)
  }

  /** The turn a property question produces once its passages are known. */
  function PropertyTurn(h: seq<Message>, query: string, retrieved: seq<Doc>, reply: string): Turn {
    if retrieved == [] then
      Turn(Response(Fallback, []), None, h + [Message(User, query), Message(Assistant, Fallback)])
    else
      var answer := Clean(reply);
      Turn(Response(answer, Numbered(CitationSources(answer, retrieved))),
           Some(PropertyCall(FormatHistory(h), query, ContextBlock(retrieved))),
           h + [Message(User, query), Message(Assistant, answer)])
  }

  /** The turn a small-talk question produces. */
  function GeneralTurn(h: seq<Message>, query: string, reply: string): Turn {
    var answer := Clean(reply);
    Turn(Response(answer, []), Some(GeneralCall(FormatHistory(h), query)),
         h + [Message(User, query), Message(Assistant, answer)])
  }

  /** What one request does to a session whose history is `h`. */
  function Answer(h: seq<Message>, query: string, search: SearchOutcome, topK: int, reply: string): (t: Turn)
    ensures |t.history| >= |h| && t.history[..|h|] == h
    ensures t.response.answer != ""
  {
    FallbackShape();
    if IsShortcut(query) then ShortcutTurn(h)
    else if IsPropertyRelated(query) then PropertyTurn(h, query, TopDocs(search, topK), reply)
    else GeneralTurn(h, query, reply)
  }

  /** The memory after serving `r`. */
  function Serve(m: Memory, r: Request, topK: int): (m': Memory)
    ensures r.sessionId in m' && m'.Keys == m.Keys + {r.sessionId}
  {
    m[r.sessionId := Answer(HistoryIn(m, r.sessionId), r.query, r.search, topK, r.reply).history]
  }

  /** The memory after serving `rs` one after another. */
  function ServeAll(m: Memory, rs: seq<Request>, topK: int): Memory
    decreases |rs|
  {
    if rs == [] then m else ServeAll(Serve(m, rs[0], topK), rs[1..], topK)
  }

  /** How many of `rs` are non-shortcut requests for session `s`. */
  function NormalCount(rs: seq<Request>, s: string): nat
    decreases |rs|
  {
    if rs == [] then 0
    else (if rs[0].sessionId == s && !IsShortcut(rs[0].query) then 1 else 0) + NormalCount(rs[1..], s)
  }

  lemma AppendTwo<T>(s: seq<T>, a: T, b: T)
    ensures s + [a] + [b] == s + [a, b]
  {
  }

  class RagEngine {
    /** `settings.top_k`. */
    const topK: int
    /** `_SESSION_MEMORY`. */
    var memory: Memory

    constructor(topK: int)
      ensures this.topK == topK && memory == map[]
    {
      this.topK := topK;
      memory := map[];
    }

    /** `_retrieve(query)` once the search has answered: rank in search order, apply the
        keyword boost, keep `min(top_k, 4)`. */
    method RetrieveContext(query: string, search: SearchOutcome) returns (retrieved: seq<Doc>)
      ensures retrieved == TopDocs(search, topK)
      ensures topK >= 0 ==> |retrieved| <= MaxContext
    {
      var ranked := Enumerated(search);
      ranked := KeywordBoost(query, ranked);
      var top := PyPrefix(ranked, Min(topK, MaxContext));
      retrieved := Docs(top);
      RetrieveIsPrefix(query, search, topK);
    }

    /** Document mode once passages are in hand: prompt the model with the history and
        the numbered passages, clean the reply, record both turns, select citations. */
    method AnswerFromPassages(history: seq<Message>, query: string, retrieved: seq<Doc>, reply: string)
      returns (t: Turn)
      requires retrieved != []
      ensures t == PropertyTurn(history, query, retrieved, reply)
    {
      var contextBlock := ContextBlock(retrieved);
      var historyText := FormatHistory(history);
      var call := Some(PropertyCall(historyText, query, contextBlock));
      var answerText := Clean(reply);
      var h := history + [Message(User, query)];
      h := h + [Message(Assistant, answerText)];
      AppendTwo(history, Message(User, query), Message(Assistant, answerText));
      var citations := SelectCitations(answerText, retrieved);
      t := Turn(Response(answerText, citations), call, h);
    }

    /** The request logic on the session's history: the shortcut, document mode, or
        small talk. Returns what the request answers and the history it leaves. */
    method Respond(history: seq<Message>, query: string, search: SearchOutcome, reply: string)
      returns (t: Turn)
      ensures t == Answer(history, query, search, topK, reply)
    {
      if IsShortcut(query) {
        t := Turn(Response(ShortcutAnswer(history), []), None, history);
        return;
      }
      var isProperty := IsPropertyRelated(query);
      if isProperty {
        var retrieved := RetrieveContext(query, search);
        if retrieved == [] {
          var h := history + [Message(User, query)];
          h := h + [Message(Assistant, Fallback)];
          AppendTwo(history, Message(User, query), Message(Assistant, Fallback));
          t := Turn(Response(Fallback, []), None, h);
          return;
        }
        t := AnswerFromPassages(history, query, retrieved, reply);
      } else {
        var historyText := FormatHistory(history);
        var call := Some(GeneralCall(historyText, query));
        var answerText := Clean(reply);
        var h := history + [Message(User, query)];
        h := h + [Message(Assistant, answerText)];
        AppendTwo(history, Message(User, query), Message(Assistant, answerText));
        t := Turn(Response(answerText, []), call, h);
      }
    }

    /** `qa_with_history(session_id, query)`: `setdefault` the session's history, answer,
        and store the history the answer leaves; no other session is touched. */
    method QaWithHistory(sessionId: string, query: string, search: SearchOutcome, reply: string)
      returns (response: Response, call: Option<ModelCall>)
      modifies this
      ensures var t := Answer(HistoryIn(old(memory), sessionId), query, search, topK, reply);
              response == t.response && call == t.call
      ensures memory == Serve(old(memory), Request(sessionId, query, search, reply), topK)
    {
      var history := HistoryIn(memory, sessionId);
      memory := memory[sessionId := history];
      var t := Respond(history, query, search, reply);
      memory := memory[sessionId := t.history];
      response := t.response;
      call := t.call;
      assert memory == old(memory)[sessionId := t.history];
    }
  }

  // ---------------------------------------------------------------------------
  // What one request promises
  // ---------------------------------------------------------------------------

  /** The shortcut reply is the "none found" sentence exactly when there is no question,
      or the most recent one was empty. */
  lemma ShortcutAnswerNone(h: seq<Message>)
    ensures ShortcutAnswer(h) == NoPreviousQuestion <==>
            (forall i :: 0 <= i < |h| ==> h[i].role != User) || LastUserContent(h) == Some("")
  {
    match LastUserContent(h)
    case None =>
    case Some(q) =>
      if q != "" {
        var quoted := "The previous question you asked was: \"" + q + "\"";
        assert quoted[0] == 'T' != NoPreviousQuestion[0];
      }
  }

  /** Otherwise it quotes the content of the most recent `user` entry. */
  lemma ShortcutAnswerQuotes(h: seq<Message>, i: int)
    requires 0 <= i < |h| && h[i].role == User && h[i].content != ""
    requires forall j :: i < j < |h| ==> h[j].role != User
    ensures ShortcutAnswer(h) == "The previous question you asked was: \"" + h[i].content + "\""
  {
    var k :| 0 <= k < |h| && h[k].role == User && h[k].content == LastUserContent(h).value &&
             forall j :: k < j < |h| ==> h[j].role != User;
    assert k == i;
  }

  /** The shortcut reads the history without writing it, cites nothing and calls no model. */
  lemma ShortcutReadsOnly(h: seq<Message>, query: string, search: SearchOutcome, topK: int, reply: string)
    requires IsShortcut(query)
    ensures var t := Answer(h, query, search, topK, reply);
      t.history == h && t.response == Response(ShortcutAnswer(h), []) && t.call.None?
  {
  }

  /** A request that is not the shortcut appends exactly the question and the answer. */
  lemma NormalRequestAppendsTwo(h: seq<Message>, query: string, search: SearchOutcome, topK: int, reply: string)
    requires !IsShortcut(query)
    ensures var t := Answer(h, query, search, topK, reply);
      && t.history == h + [Message(User, query), Message(Assistant, t.response.answer)]
      && |t.history| == |h| + 2
      && t.history[..|h|] == h
  {
  }

  /** Small talk never cites. */
  lemma GeneralCitesNothing(h: seq<Message>, query: string, search: SearchOutcome, topK: int, reply: string)
    requires !IsPropertyRelated(query)
    ensures var t := Answer(h, query, search, topK, reply);
      t.response.citations == [] && (!IsShortcut(query) ==> t.call == Some(GeneralCall(FormatHistory(h), query)))
  {
  }

  /** A property question with nothing retrieved gets the fixed fallback, no citations and
      no model call. */
  lemma EmptyRetrievalFallback(h: seq<Message>, query: string, search: SearchOutcome, topK: int, reply: string)
    requires !IsShortcut(query) && IsPropertyRelated(query)
    ensures var t := Answer(h, query, search, topK, reply);
      TopDocs(search, topK) == [] <==>
        (t.response == Response(Fallback, []) && t.call.None?)
  {
    var t := Answer(h, query, search, topK, reply);
    if TopDocs(search, topK) != [] {
      assert t.call.Some?;
    }
  }

  /** Once passages are known, the question is answered with the reply cleaned, cited as
      the selector does: ids `1..n`, distinct sources, at least one and at most as many
      as passages; the model sees every passage. */
  lemma PropertyTurnCites(h: seq<Message>, query: string, docs: seq<Doc>, reply: string)
    requires docs != []
    ensures var t := PropertyTurn(h, query, docs, reply);
      && t.response.answer == Clean(reply)
      && t.call.Some? && t.call.value.PropertyCall?
      && (forall k :: 0 <= k < |docs| ==> Contains(t.call.value.context, docs[k].content))
      && 1 <= |t.response.citations| <= |docs|
      && (forall i :: 0 <= i < |t.response.citations| ==> t.response.citations[i].id == i + 1)
      && (forall i, j :: 0 <= i < j < |t.response.citations| ==>
            t.response.citations[i].source != t.response.citations[j].source)
  {
    var answer := Clean(reply);
    CitationSourcesShape(answer, docs);
    var srcs := CitationSources(answer, docs);
    assert Distinct(srcs);
    forall k | 0 <= k < |docs| ensures Contains(ContextBlock(docs), docs[k].content) {
      ContextBlockHasPassages(docs, k);
    }
  }

  /** A property question with passages cites at most four of them when `top_k` is
      not negative. */
  lemma PropertyAnswerCites(h: seq<Message>, query: string, search: SearchOutcome, topK: int, reply: string)
    requires !IsShortcut(query) && IsPropertyRelated(query)
    requires TopDocs(search, topK) != []
    ensures var t := Answer(h, query, search, topK, reply);
      && t == PropertyTurn(h, query, TopDocs(search, topK), reply)
      && 1 <= |t.response.citations| <= |TopDocs(search, topK)|
      && (topK >= 0 ==> |t.response.citations| <= MaxContext)
  {
    var docs := TopDocs(search, topK);
    RetrieveIsPrefix(query, search, topK);
    PropertyTurnCites(h, query, docs, reply);
  }

  /** Whatever the model replies, a request that reaches it answers with something
      non-empty and not a lone `.`, `:`, `-` or em dash (other marks, such as `?`, are kept). */
  lemma AnswerNeverDegenerate(h: seq<Message>, query: string, search: SearchOutcome, topK: int, reply: string)
    requires !IsShortcut(query)
    ensures var a := Answer(h, query, search, topK, reply).response.answer;
      a != "" && a !in Degenerate
  {
    FallbackShape();
  }

  /** When every entry is a single line, the conversation shown to the model is the
      session's history before this request, complete and in order. */
  lemma ModelSeesHistory(h: seq<Message>, query: string, search: SearchOutcome, topK: int, reply: string)
    requires forall i :: 0 <= i < |h| ==> SingleLine(h[i])
    ensures var t := Answer(h, query, search, topK, reply);
      t.call.Some? ==> ParseHistory(t.call.value.history) == Some(h) && t.call.value.question == query
  {
    FormatHistoryRoundTrip(h);
  }

  /** Whatever the entries contain, the conversation shown to the model holds every
      entry's `Role: content` line. */
  lemma ModelSeesEveryEntry(h: seq<Message>, query: string, search: SearchOutcome, topK: int, reply: string)
    ensures var t := Answer(h, query, search, topK, reply);
      t.call.Some? ==> forall i :: 0 <= i < |h| ==> Contains(t.call.value.history, HistoryLine(h[i]))
  {
  }

  // ---------------------------------------------------------------------------
  // Session memory across requests
  // ---------------------------------------------------------------------------

  /** After a request its session is in the memory, and every other session is untouched. */
  lemma ServeTouchesOneSession(m: Memory, r: Request, topK: int)
    ensures var m' := Serve(m, r, topK);
      && r.sessionId in m'
      && m'.Keys == m.Keys + {r.sessionId}
      && (forall s :: s in m && s != r.sessionId ==> m'[s] == m[s])
  {
  }

  /** Over any run of requests, each session's history grows by exactly two entries per
      non-shortcut request for it. */
  lemma {:induction false} ServeAllGrowth(m: Memory, rs: seq<Request>, topK: int, s: string)
    ensures |HistoryIn(ServeAll(m, rs, topK), s)| == |HistoryIn(m, s)| + 2 * NormalCount(rs, s)
    decreases |rs|
  {
    if rs != [] {
      var r := rs[0];
      var m1 := Serve(m, r, topK);
      ServeAllGrowth(m1, rs[1..], topK, s);
      if r.sessionId == s {
        var h := HistoryIn(m, s);
        if !IsShortcut(r.query) {
          NormalRequestAppendsTwo(h, r.query, r.search, topK, r.reply);
        }
      }
    }
  }

  /** Sessions that no request names keep their history through a whole run. */
  lemma {:induction false} ServeAllOtherSessions(m: Memory, rs: seq<Request>, topK: int, s: string)
    requires forall i :: 0 <= i < |rs| ==> rs[i].sessionId != s
    ensures HistoryIn(ServeAll(m, rs, topK), s) == HistoryIn(m, s)
    ensures s in ServeAll(m, rs, topK) <==> s in m
    decreases |rs|
  {
    if rs != [] {
      ServeAllOtherSessions(Serve(m, rs[0], topK), rs[1..], topK, s);
    }
  }
}
