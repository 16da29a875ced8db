# Answer assembly of the property-management chatbot, in Dafny

This project models the orchestration core of the retrieval-augmented chatbot in
`src/chatbot/rag_engine.py`. That core takes one user query in a session and decides:

- whether the query is the "previous question" shortcut, a property question answered
  from retrieved document passages, or small talk;
- which passages the model sees, and how they are ranked and numbered;
- how the model's raw reply is cleaned;
- which sources are cited, with `{id, source}` entries numbered from 1;
- what the session's in-memory history holds afterwards.

The vector search and the language model are foreign calls. In the model, the search
outcome (scored hits, or the documents of the fallback retriever when the scored search
raised) and the model's reply text are inputs. The engine's result tells whether a model
call would be made, and with what: the rendered history, the question and the numbered
context block. The session memory `_SESSION_MEMORY` is the `memory` field of the class
`Engine.RagEngine`, a map from session id to history. `QaWithHistory` updates it.

Modules, one per concern of the source:

- `Text`: Python string behaviour the core relies on. This covers `lower()`,
  `capitalize()`, `k in text`, `strip`/`lstrip` with and without characters, the whole
  words that `\b\d+\b` and `\b(?:\d+|\w{4,})\b` match, `join`, and `str(n)`. A
  one-character `split` is there only to read a rendered history back (`Prompts.ParseHistory`);
  the source never splits.
- `Documents`: a retrieved passage and its string metadata.
- `Cleaning`: `_clean_answer`.
- `Citations`: `_select_citations`. The loop is a method, proved equal to a recursive
  specification.
- `Retrieval`: `_keyword_boost` and the part of `RAGEngine._retrieve` after the search.
- `Prompts`: `_format_history`, `_is_property_related` and the numbered context block.
- `Engine`: `RAGEngine.qa_with_history` and the session memory.

Behaviour the proofs pin down, following the code where its comments say otherwise:

- **The keyword boost never reorders anything.** Candidates come from `enumerate`, so
  their indexes are consecutive integers. The boosted key `idx - 0.5` never falls below
  the key of the candidate before, and the stable sort keeps the search order.
  Retrieval is therefore the first `min(top_k, 4)` search results. A negative `top_k`
  follows Python slicing and drops the last `-top_k` results instead.
- **Key terms are not matched against the answer.** The citation docstring speaks of key
  phrases "contained in the final answer". The code counts the fixed key terms that occur
  in each passage, whatever the answer says. So a passage mentioning "adara" always
  qualifies: it contains both "adar" and "adara".
- **Property keywords are substrings, not whole words.** "current" counts as
  property-related through "rent".
- **Cleaning strips in a fixed order.** One pass of cleaning can leave a colon that a
  second pass removes, so cleaning is not idempotent.
- **The fallback for an empty retrieval is the cleaner's fallback.** It is the same
  sentence the cleaner substitutes for an empty or degenerate reply.

## Model

| member | source | states |
|---|---|---|
| Documents.Meta | src/chatbot/rag_engine.py:104 | A non-empty metadata value is the stored value; a missing key reads as empty |
| Text.Lower | src/chatbot/rag_engine.py:35 | Lower-casing keeps the length and maps each character through the ASCII lower-case map |
| Text.LowerIdempotent | src/chatbot/rag_engine.py:35 | Lower-cased text has no upper-case letter, and lower-casing it again changes nothing |
| Text.Contains | src/chatbot/rag_engine.py:36 | Python's `p in t` on strings: `p` occurs in `t` at some offset; the same test serves lines 101-102, 122 and 161 |
| Text.Join | src/chatbot/rag_engine.py:21 | `sep.join(parts)`: the parts in order with `sep` between neighbours, as also used at line 177 |
| Text.NatToString | src/chatbot/rag_engine.py:177 | `str(n)` on a natural number is a non-empty string of decimal digits |
| Text.Capitalize | src/chatbot/rag_engine.py:21 | The first character is upper-cased and the rest lower-cased, keeping the length |
| Text.SkipLeading | src/chatbot/rag_engine.py:79-80 | A left strip stops inside the slice, at its end or at a character outside the strip set |
| Text.SkipTrailing | src/chatbot/rag_engine.py:79-80 | A right strip stops inside the slice, at its start or after a character outside the strip set |
| Text.SkipLeadingSkips | src/chatbot/rag_engine.py:79-80 | Every character a left strip skips is in the strip set |
| Text.SkipTrailingSkips | src/chatbot/rag_engine.py:79-80 | Every character a right strip drops is in the strip set |
| Text.WordsExactly | src/chatbot/rag_engine.py:93 | The extracted words are exactly the maximal runs of word characters, in both directions |
| Text.ParseNatToString | src/chatbot/rag_engine.py:177 | The decimal label of a passage number reads back as that number |
| Cleaning.Clean | src/chatbot/rag_engine.py:77-83 | A cleaned answer is never empty and never a lone `.`, `:`, `-` or em dash |
| Cleaning.CleanIsTrimmedSlice | src/chatbot/rag_engine.py:79-83 | A cleaned answer is the fallback or a contiguous part of the reply; only whitespace and leading `:`, `-`, em dash were cut from the front, only whitespace from the back |
| Cleaning.CleanPassesThrough | src/chatbot/rag_engine.py:78-83 | An answer that starts with a character the cleaner keeps, ends with a non-space and is not a lone degenerate mark is returned unchanged |
| Cleaning.CleanStripsOuterSpace | src/chatbot/rag_engine.py:78-83 | A reply made of an answer with whitespace around it cleans to that answer, when the answer starts with a character the cleaner keeps, ends with a non-space and is not a lone degenerate mark |
| Cleaning.FallbackOnlyWhenJunk | src/chatbot/rag_engine.py:78-83 | The fallback is chosen only for replies made entirely of whitespace, leading `:`, `-`, em dash and a leftover full stop |
| Cleaning.CleanTrailingNewline | src/chatbot/rag_engine.py:79-83 | "Rent is due.\n" cleans to "Rent is due." |
| Cleaning.TrimBounds | src/chatbot/rag_engine.py:79-80 | The strip chain keeps a slice `text[i..j]` with `i <= j <= len(text)` |
| Cleaning.Trimmed | src/chatbot/rag_engine.py:79-80 | The trimmed text is no longer than the reply |
| Cleaning.TrimBoundsEnds | src/chatbot/rag_engine.py:80 | A non-empty trimmed slice starts and ends with a non-whitespace character |
| Cleaning.CleanHasNoOuterSpace | src/chatbot/rag_engine.py:79-83 | A cleaned answer neither starts nor ends with whitespace |
| Cleaning.FallbackShape | src/chatbot/rag_engine.py:82 | The fallback sentence has 46 characters and is not degenerate |
| Cleaning.CleanFallback | src/chatbot/rag_engine.py:77-83 | Cleaning the fallback sentence returns it unchanged |
| Cleaning.CleanDashColon | src/chatbot/rag_engine.py:80 | "-:abc" cleans to ":abc", because the colon strip runs before the hyphen strip |
| Cleaning.CleanColon | src/chatbot/rag_engine.py:80 | ":abc" cleans to "abc" |
| Cleaning.CleanNotIdempotent | src/chatbot/rag_engine.py:77-83 | Cleaning twice can differ from cleaning once |
| Citations.Numbers | src/chatbot/rag_engine.py:93 | Every extracted number is a non-empty string of digits |
| Citations.NumbersExactly | src/chatbot/rag_engine.py:93 | A string is an extracted number exactly when it is all digits and a whole word of the answer |
| Citations.CitedSource | src/chatbot/rag_engine.py:104 | The source of a qualifying passage is never empty |
| Citations.TopSource | src/chatbot/rag_engine.py:110 | The fallback source of the top passage is never empty |
| Citations.Overlap | src/chatbot/rag_engine.py:99-102 | The overlap counts each answer number and each key term at most once |
| Citations.Qualifies | src/chatbot/rag_engine.py:103 | A passage qualifies when its lower-cased text has an overlap of at least two |
| Citations.CitationSources | src/chatbot/rag_engine.py:97-110 | The cited sources are empty exactly when nothing was retrieved, at most one per passage, distinct and non-empty |
| Citations.Selected | src/chatbot/rag_engine.py:97-107 | The loop selects at most one source per passage, none of them empty |
| Citations.SelectCitations | src/chatbot/rag_engine.py:85-112 | The loop computes the numbered citation sources: ids `1..n`, distinct sources, at most one per passage, none exactly when nothing was retrieved |
| Citations.Numbered | src/chatbot/rag_engine.py:112 | Citation `i` has id `i + 1` and the `i`-th selected source, one per source |
| Citations.SelectedDistinct | src/chatbot/rag_engine.py:105-107 | No source is selected twice |
| Citations.SelectedSound | src/chatbot/rag_engine.py:98-106 | Every selected source belongs to a passage with at least two overlaps |
| Citations.SelectedComplete | src/chatbot/rag_engine.py:98-106 | Every passage with at least two overlaps has its source selected |
| Citations.SelectedMembers | src/chatbot/rag_engine.py:98-107 | A source is selected exactly when some qualifying passage carries it |
| Citations.SelectedPrefix | src/chatbot/rag_engine.py:97-107 | Selection is first-seen-wins: what the first `k` passages select is a prefix of the whole selection |
| Citations.CitationSourcesShape | src/chatbot/rag_engine.py:109-112 | Citations are empty exactly when nothing was retrieved; otherwise they are the selection, or the top passage's source when nothing qualified |
| Citations.AdaraAlwaysQualifies | src/chatbot/rag_engine.py:94-103 | A passage containing "adara" qualifies whatever the answer is |
| Retrieval.SearchK | src/chatbot/rag_engine.py:145 | The search asks for `max(top_k, 8)` hits |
| Retrieval.Enumerated | src/chatbot/rag_engine.py:148-151 | Each search hit keeps its document and gets its position as its index |
| Retrieval.BoostKey | src/chatbot/rag_engine.py:119-123 | A candidate's sort key lies between `idx - 0.5` and `idx` |
| Retrieval.QueryTokens | src/chatbot/rag_engine.py:118 | Every query token is non-empty and is all digits or at least four characters long |
| Retrieval.QueryTokensExactly | src/chatbot/rag_engine.py:118 | A string is a token exactly when it is all digits or at least four characters long and a whole word of the lower-cased query |
| Retrieval.KeywordBoost | src/chatbot/rag_engine.py:117-125 | The boost is a permutation of the candidates |
| Retrieval.InsertByKey | src/chatbot/rag_engine.py:124 | Insertion adds exactly the one element |
| Retrieval.SortByKey | src/chatbot/rag_engine.py:124 | The sort is a permutation of its input |
| Retrieval.SortByKeySorted | src/chatbot/rag_engine.py:124 | The sort leaves the candidates in key order |
| Retrieval.SortByKeyStable | src/chatbot/rag_engine.py:124 | Candidates sharing a key keep their relative order |
| Retrieval.InsertSorted | src/chatbot/rag_engine.py:124 | Inserting into a key-ordered list keeps it key-ordered |
| Retrieval.InsertWithKey | src/chatbot/rag_engine.py:124 | Inserting preserves the order of the elements of every key |
| Retrieval.SortByKeyOfSorted | src/chatbot/rag_engine.py:124 | Sorting a key-ordered list changes nothing |
| Retrieval.KeywordBoostKeepsOrder | src/chatbot/rag_engine.py:117-125 | On candidates with increasing integer indexes the boost returns them unchanged |
| Retrieval.PyPrefix | src/chatbot/rag_engine.py:155 | The slice `s[:n]` is a prefix of `s` |
| Retrieval.Docs | src/chatbot/rag_engine.py:155 | The documents of the ranked list, one per entry, in order |
| Retrieval.Retrieve | src/chatbot/rag_engine.py:140-155 | Retrieval returns no more documents than the search found, and at most four when `top_k` is not negative |
| Retrieval.TopDocs | src/chatbot/rag_engine.py:154-155 | The first `min(top_k, 4)` search documents are a prefix of the search result, exactly that many when the search found at least four and `top_k` is not negative |
| Retrieval.RetrieveIsPrefix | src/chatbot/rag_engine.py:140-155 | Retrieval is the first `min(top_k, 4)` search results in search order, at most four when `top_k` is not negative; a negative `top_k` drops the last `-top_k` |
| Prompts.RoleLabel | src/chatbot/rag_engine.py:21 | The role labels render as "User" and "Assistant" |
| Prompts.HistoryLines | src/chatbot/rag_engine.py:21 | One rendered line per history entry, in order |
| Prompts.HistoryLine | src/chatbot/rag_engine.py:21 | An entry renders as its capitalised role, `": "` and its content; `Prompts.ParseHistoryLine` reads it back |
| Prompts.FormatHistory | src/chatbot/rag_engine.py:20-21 | Every entry's `Role: content` line appears in the rendered history, whatever the entries contain |
| Prompts.ParseHistoryLine | src/chatbot/rag_engine.py:21 | A rendered line reads back as its entry |
| Prompts.FormatHistoryRoundTrip | src/chatbot/rag_engine.py:20-21 | A rendered history of single-line entries reads back as exactly that history, one line per entry |
| Prompts.PropertyRelatedInContext | src/chatbot/rag_engine.py:34-36 | A property-related query stays property-related with any text around it |
| Prompts.IsPropertyRelated | src/chatbot/rag_engine.py:26-36 | A query is property-related when its lower-cased text contains one of the 34 keywords |
| Prompts.PropertyRelatedIgnoresCase | src/chatbot/rag_engine.py:35-36 | The property test ignores the query's case |
| Prompts.SubstringKeywordMatch | src/chatbot/rag_engine.py:36 | "current" is property-related, since keywords match as substrings |
| Prompts.ContextEntries | src/chatbot/rag_engine.py:177 | One numbered entry per retrieved passage, in order |
| Prompts.ContextEntry | src/chatbot/rag_engine.py:177 | Passage `i` renders as `"[" + str(i + 1) + "] "` and its text; `Prompts.ParseContextEntry` reads it back |
| Prompts.ContextBlock | src/chatbot/rag_engine.py:177 | The context block contains every numbered entry |
| Prompts.ParseContextEntry | src/chatbot/rag_engine.py:177 | Entry `i` of the context block carries the number `i + 1` and the passage text unchanged |
| Prompts.ContextBlockHasPassages | src/chatbot/rag_engine.py:177 | The context block contains every numbered entry and every passage's text |
| Engine.LastUserIndex | src/chatbot/rag_engine.py:162 | It finds the most recent `user` entry, or -1 when there is none |
| Engine.LastUserContent | src/chatbot/rag_engine.py:162 | It finds nothing exactly when no entry is from the user; otherwise it returns the content of the most recent user entry |
| Engine.IsShortcut | src/chatbot/rag_engine.py:161 | A query is the shortcut when its lower-cased text contains "previous question" |
| Engine.ShortcutAnswer | src/chatbot/rag_engine.py:162-163 | The shortcut reply is never empty, and it differs from "No previous question found." only when a non-empty user question exists |
| Engine.HistoryIn | src/chatbot/rag_engine.py:158 | The session's stored history, or the empty history that `setdefault` creates for a new session |
| Engine.ShortcutTurn | src/chatbot/rag_engine.py:161-164 | The shortcut turn: the shortcut reply with no citations, no model call and the history unchanged |
| Engine.PropertyTurn | src/chatbot/rag_engine.py:170-188 | The property turn: with no passages, the fallback with no citations and no call; otherwise the document prompt on the rendered history, the numbered context and the query, the cleaned reply cited by the selector; the question and answer appended in both cases |
| Engine.GeneralTurn | src/chatbot/rag_engine.py:190-200 | The small-talk turn: the general prompt on the rendered history and the query, the cleaned reply with no citations, the question and answer appended |
| Engine.ShortcutAnswerNone | src/chatbot/rag_engine.py:161-163 | The shortcut says "No previous question found." exactly when there is no user entry or the most recent one is empty |
| Engine.ShortcutAnswerQuotes | src/chatbot/rag_engine.py:163 | Otherwise it quotes the most recent user question |
| Engine.ShortcutReadsOnly | src/chatbot/rag_engine.py:161-164 | The shortcut leaves the history as it was, cites nothing and calls no model |
| Engine.NormalRequestAppendsTwo | src/chatbot/rag_engine.py:166-198 | Any other request appends exactly the question and the answer given |
| Engine.GeneralCitesNothing | src/chatbot/rag_engine.py:190-200 | Small talk cites nothing and calls the general prompt with the rendered history |
| Engine.EmptyRetrievalFallback | src/chatbot/rag_engine.py:170-175 | A property question gets the fallback, no citations and no model call exactly when retrieval is empty |
| Engine.PropertyTurnCites | src/chatbot/rag_engine.py:177-188 | With passages, the answer is the cleaned reply; the model sees every passage; citations are numbered `1..n`, distinct, at least one and at most one per passage |
| Engine.PropertyAnswerCites | src/chatbot/rag_engine.py:166-188 | A property question with passages cites at least one and at most four sources when `top_k` is not negative |
| Engine.AnswerNeverDegenerate | src/chatbot/rag_engine.py:170-195 | Every non-shortcut answer is non-empty and not a lone `.`, `:`, `-` or em dash; other marks such as `?` pass through |
| Engine.ModelSeesHistory | src/chatbot/rag_engine.py:178-181 | When every entry is a single line, the history shown to the model reads back as the whole session history before the request, and the question is the query |
| Engine.ModelSeesEveryEntry | src/chatbot/rag_engine.py:178-194 | For any history, the conversation shown to the model holds every entry's `Role: content` line |
| Engine.Answer | src/chatbot/rag_engine.py:160-200 | One request keeps every earlier history entry in place and always answers with a non-empty text |
| Engine.Serve | src/chatbot/rag_engine.py:157-200 | After a request the memory holds that session, and no other session is added or removed |
| Engine.ServeTouchesOneSession | src/chatbot/rag_engine.py:158 | After a request its session exists and every other session is unchanged |
| Engine.ServeAllGrowth | src/chatbot/rag_engine.py:157-200 | Over any run, a session's history grows by two entries per non-shortcut request for it |
| Engine.ServeAllOtherSessions | src/chatbot/rag_engine.py:157-200 | Sessions no request names keep their history, and stay absent if absent |
| Engine.RagEngine.constructor | src/chatbot/rag_engine.py:18 | The session memory starts empty |
| Engine.RagEngine.RetrieveContext | src/chatbot/rag_engine.py:140-155 | Enumerating, boosting and cutting yields the first `min(top_k, 4)` search results |
| Engine.RagEngine.AnswerFromPassages | src/chatbot/rag_engine.py:177-188 | Document mode with passages produces exactly `Engine.PropertyTurn`: prompt, cleaned answer, both history entries, citations |
| Engine.RagEngine.Respond | src/chatbot/rag_engine.py:160-200 | The request logic produces exactly `Engine.Answer`, which picks `Engine.ShortcutTurn`, `Engine.PropertyTurn` on the retrieved passages, or `Engine.GeneralTurn` |
| Engine.RagEngine.QaWithHistory | src/chatbot/rag_engine.py:157-200 | It returns that turn's response and model call, and stores the resulting history under the session id only |

## Left out

- The similarity search, the FAISS index, and the fallback retriever are not modelled. Their result is the `SearchOutcome` input. `Retrieval.SearchK` only computes the `k` passed to them.
- The language model and the prompt templates are not modelled. The reply text is an input. The engine returns the `ModelCall` it would make, with history, question and context, but does not render the template text.
- `RAGEngine.__init__` is not part of this model: the model handler, the document loaders and chunking, and the index build. Settings, routes and the frontend are not part of it either.
- Concurrent requests sharing `_SESSION_MEMORY` are not modelled. Requests are served one after another.
- `_SESSION_MEMORY` is a module-level dictionary shared by every `RAGEngine`, and `__init__` does not reset it. Here it is a field of one `Engine.RagEngine`, which starts empty. The sharing between several engines is not captured.
- Raising calls are not modelled. The model call (`chain.invoke`) and the fallback retriever (`get_relevant_documents`) can raise. `qa_with_history` then propagates the exception after `setdefault` has created the session, and appends nothing. The model has no failing request. So `Engine.ServeAllGrowth` counts two entries for every non-shortcut request, which holds only for runs where every call returns.
- Engine.ModelSeesHistory: the exact read-back is proved only for histories whose entries are single lines. A multi-line entry, such as a long model answer, cannot be told apart from several entries in the rendering. For any history, `Engine.ModelSeesEveryEntry` proves only that each entry's line appears in it.
- Retrieval.SearchK: only computes the `k` passed to the search. Nothing ties the search outcome to it, because the number of hits the search returns is not modelled.
- The history list is appended in place in the source. Here the stored history is replaced by the extended one in the memory map, so aliasing of that list is not modelled.
- `Retrieval.KeywordBoost`: the in-place `list.sort` is modelled on values, as a stable insertion sort by the same key.
- `Text.Lower`: case mapping, `capitalize()`, `\w` and `\d` are restricted to ASCII. Non-ASCII letters and digits are left unchanged and do not count as word characters.
- `Documents.Meta`: metadata values are strings. A non-string value is not modelled and reads as missing.
- Inputs are strings. The `None` handling of `query or ""`, `text or ""` and `page_content or ""` is not modelled.
- `getattr(response, "content", "")` is not modelled: the reply is always a string.
