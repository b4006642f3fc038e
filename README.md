# ai-sales-assistant core, modelled in Dafny

This project models the deterministic core of a WhatsApp sales assistant for a used-car
retailer. A customer message arrives on a Redis stream. A worker reads it and hands it to
the conversation service. The service keeps the last turns of each user's conversation in
Redis and asks an LLM agent for a reply. The agent may call four tools, then the worker
sends the reply back and acknowledges the message. The four tools are:

- a catalogue search over the `cars` table;
- a loan calculator;
- retrieval of knowledge passages, first from a vector store and then from Postgres;
- fuzzy normalisation of a make and model.

Two scripts fill the data: one loads the car catalogue from a CSV file, and one cuts a web
page into chunks for retrieval.

Modules, one per source file plus shared helpers:

- `Financing` is `calc_financing`. Exact reals stand for Python's `Decimal`, and
  `quantize` is half-even rounding to cents.
- `Normalize` covers `normalize_token`, `best_match` and `normalize_make_model`. The
  WRatio scorer is a parameter.
- `Sessions` is the Redis-backed `SessionStore`, a class whose field is the map of Redis
  lists. `Json` gives the `json.dumps` of a turn and a decoder for that form.
- `Catalog` covers `known_make_model_pairs` and `search_catalog`, with the meaning of the
  SQL statement the code builds.
- `Rag` is `retrieve_kavak_knowledge`: its vector tier as a datatype of outcomes, and the
  Postgres fallback.
- `Orchestrator` is `run_agent` with its tool dispatch. The chat model, `json.loads`, the
  pydantic validators and the data the tools see are all parameters, gathered in one `Env`.
- `Conversation` is `ConversationService.handle_message`.
- `Worker` is the body of `worker_loop` over one batch of stream entries.
- `Ingest` covers `chunk_text` and `stable_point_id`.
- `Seed` covers the conversions and the row loop of the catalogue loader.
- The helper modules are `Common` (Option, Result, Python slices), `Text` (Python's
  `strip`, `lower`, `split` and `join`), `Sorting` (ORDER BY as an insertion sort) and
  `Models` (the table rows, which the catalogue loader builds and the catalogue search reads).

Where the code does something step by step, the model is a method with a loop. That method
is proved equal to a specification function, and the properties are lemmas about that
function.

Three behaviours of the code shape the model:

- `quantize` is called without a rounding argument (app/tools/financing.py:45-47), so
  it rounds half-even, Decimal's default.
- `run_agent` has no `try` around the tool loop (app/llm/orchestrator.py:81-131). An
  exception from `json.loads`, from a pydantic model, from a tool or from the chat model
  propagates out of `run_agent`, then out of `handle_message`. The worker catches it
  (app/worker.py:30-47) and leaves the message unacknowledged.
- The docstring of `chunk_text` promises a maximum chunk size, and the body does not
  keep that promise (app/scripts/ingest_kavak_knowledge.py:22-42). A paragraph longer
  than `max_chars` becomes a chunk of its own (`Ingest.LongParagraphKept`). A joined
  chunk may also reach `max_chars + 1`, because the newline is not counted in the
  length test.

## Model

| member | source | states |
|---|---|---|
| Financing.Calc | app/tools/financing.py:14-27 | A non-positive price raises the price error. A negative down payment raises the down-payment error. A down payment at least the price gives no options. An error occurs exactly in those two invalid cases. |
| Financing.CalcFinancing | app/tools/financing.py:14-50 | The validation followed by the loop over the terms 3, 4, 5, 6 (skipping a zero denominator) computes exactly `Calc`. |
| Financing.RoundHalfEvenCorrect | app/tools/financing.py:45-47 | The rounding used is half-even rounding, and half-even rounding of a value is unique. |
| Financing.Quantize2Spec | app/tools/financing.py:45-47 | `quantize(Decimal("0.01"))` lands on whole cents at most half a cent away. It leaves whole cents unchanged and is idempotent. |
| Financing.OptionsOrdered | app/tools/financing.py:30-49 | Options come in term order, at most one per term, each from the offered terms, with months = years * 12. |
| Financing.OptionsAllTerms | app/tools/financing.py:30-49 | When no denominator vanishes, every term gives an option, and the years are exactly the terms. |
| Financing.OptionsNoTerms | app/tools/financing.py:34-36 | When every denominator vanishes, every term is skipped. |
| Financing.OptionsFromTerms | app/tools/financing.py:30-49 | Each option is the one computed for its own term. |
| Financing.DenominatorZeroIff | app/tools/financing.py:32-36 | For an even, positive number of months, the denominator is zero exactly when the monthly rate is 0 or -2. |
| Financing.CalcTerms | app/tools/financing.py:14-50 | For valid inputs needing financing: an annual rate of 0 or -24 gives no options. Any other rate gives exactly four options, for 3, 4, 5 and 6 years, with months = 12 * years. |
| Financing.MonthlyPositive | app/tools/financing.py:32-37 | With positive principal and rate, the denominator is positive, and the exact monthly payment exceeds the interest-only payment principal * r. |
| Financing.RoundedNear | app/tools/financing.py:37-47 | An option has months = 12 * years, and each of its rounded figures is within half a cent of the exact monthly payment, total paid (monthly * months) and total interest (total - principal). |
| Financing.QuantizedFigures | app/tools/financing.py:45-47 | Each of the three quantized figures, for any monthly payment, total and principal, is within half a cent of its exact value. |
| Financing.NearFiguresConsistent | app/tools/financing.py:37-47 | Any option whose figures are each within half a cent of the exact ones is consistent. Total paid is within (months + 1) half-cents of monthly payment times months. Total interest is within a cent of total paid minus the principal. |
| Financing.RoundedFiguresConsistent | app/tools/financing.py:37-47 | The rounded figures agree up to rounding. Total paid is within (months + 1) half-cents of monthly payment times months. Total interest is within a cent of total paid minus the principal. |
| Financing.RoundedPaymentsPositive | app/tools/financing.py:14-50 | Take valid inputs with a positive rate whose interest-only payment exceeds half a cent. All four terms are offered, and every rounded monthly payment is positive. |
| Financing.OptionPaymentPositive | app/tools/financing.py:37-47 | A term whose interest-only payment exceeds half a cent yields an option with a positive rounded monthly payment. |
| Financing.ExampleTest | tests/test_financing.py:4-9 | 200000 / 50000 / 0.10 gives four options, 3 to 6 years, all with positive monthly payments. |
| Financing.ExampleNoFinancing | tests/test_financing.py:11-13 | A down payment equal to the price gives no options. |
| Normalize.AliasTargets | app/tools/normalize.py:11-16 | The alias table maps exactly vw and volks to volkswagen, chevy to chevrolet and bmv to bmw. Its targets are stripped, lower-case and not aliases themselves. |
| Normalize.NormalizeTokenCases | app/tools/normalize.py:18-20 | After strip and lower, an alias becomes its make, and any other token is returned as it is. |
| Normalize.NormalizeTokenShape | app/tools/normalize.py:18-20 | A normalised token has no surrounding whitespace and no capitals. |
| Normalize.NormalizeTokenIdempotent | app/tools/normalize.py:11-20 | Normalising twice is normalising once. |
| Normalize.BestMatchShape | app/tools/normalize.py:22-26 | `best_match` returns min(number of choices, limit) choices, each with its own score, and no choice more often than it occurs among the choices (the names are a sub-multiset of the choices). |
| Normalize.BestMatchNoRepeats | app/tools/normalize.py:22-26 | The names `best_match` returns are a sub-multiset of the choices. |
| Normalize.BestMatchOrdered | app/tools/normalize.py:22-26 | The matches come in non-increasing order of score. |
| Normalize.BestMatchOmitted | app/tools/normalize.py:22-26 | A choice that is left out scores no higher than any match that is kept. |
| Normalize.QuerySpec | app/tools/normalize.py:32-34 | One given side yields that side normalised as the query. Two non-empty normalised sides yield them joined by a space. |
| Normalize.NormalizeNothingGiven | app/tools/normalize.py:29-30 | No make and no model gives None, None, confidence 0 and no candidates. |
| Normalize.NormalizeNoPairs | app/tools/normalize.py:36-38 | With no known pairs, the raw inputs come back with confidence 0. |
| Normalize.NormalizeMatched | app/tools/normalize.py:36-44 | Up to five candidates, all known pairs and a sub-multiset of them, in non-increasing score. The confidence is the top score, and no pair beats it. The top pair, split at its first space, is the make and the model (None when there is no space). |
| Normalize.TopMatches | app/tools/normalize.py:22-26 | The five best matches of a query among non-empty choices are choices, a sub-multiset of them, in non-increasing order of score. The first scores at least as much as every choice. |
| Normalize.NormalizeUniqueBest | app/tools/normalize.py:36-44 | A pair that strictly outscores all others is the one the make and model come from. |
| Normalize.NormalizeExactPair | tests/test_normalize.py:3-8 | A make and model whose normalised join is a known pair, strictly best to the scorer, come back normalised, with that pair's score. |
| Normalize.SplitAtJoin | app/tools/normalize.py:41-43 | Splitting `a + " " + b` at the first space, for a without spaces, gives a and b. |
| Text.TrimSpec | app/scripts/seed_catalog.py:13-14 | `strip()` removes whitespace from both ends and nothing else. |
| Text.TrimIdempotent | app/scripts/seed_catalog.py:13-14 | Stripping twice is stripping once. |
| Text.TrimEmptyIff | app/scripts/ingest_kavak_knowledge.py:27 | `strip()` gives "" exactly for blank text. |
| Text.JoinedTrim | app/tools/normalize.py:34 | Stripping `a + sep + b` for stripped a and b gives a, b, or the joined text. |
| Text.LowerSpec | app/tools/normalize.py:19 | `lower()` leaves no capitals, is idempotent and keeps a stripped string stripped. |
| Text.LowerTrim | app/tools/normalize.py:19 | `lower()` commutes with `strip()`. |
| Text.SplitJoin | app/scripts/ingest_kavak_knowledge.py:27 | The pieces of `split("\n")` contain no newline, and joining them with the newline gives the text back. |
| Text.SplitFirstSpace | app/tools/normalize.py:41-43 | `split(" ", 1)`: the text before the first space has no space, and there is a remainder exactly when a space separated it. |
| Common.SlicePrefix | app/tools/rag.py:45 | Python's `s[:k]`: the first min(k, len) elements, or, for k < 0, all but the last -k. |
| Common.LastN | app/memory/session_store.py:17 | `LTRIM -k -1` keeps the last min(len, k) elements, in order. |
| Common.LastNAppend | app/memory/session_store.py:15-17 | Trimming after every push is the same as trimming once at the end. |
| Sorting.SortBy | app/tools/catalog.py:42 | ORDER BY gives a permutation of the rows, sorted by the key. |
| Sorting.PrefixIsSmallest | app/tools/catalog.py:42 | LIMIT after ORDER BY keeps rows whose keys are at most those of every row left out. |
| Sessions.KeyInjective | app/memory/session_store.py:6-7 | Distinct users get distinct Redis keys. |
| Sessions.LTrimLast | app/memory/session_store.py:16-17 | `LTRIM key -m -1` keeps the last m entries. |
| Sessions.LTrimZero | app/memory/session_store.py:16-17 | With HISTORY_MAX_TURNS = 0 the trim keeps the whole list, so the history grows without bound. |
| Sessions.PushTrimSpec | app/memory/session_store.py:13-17 | After `append_turn`, the list is the last 2 * max turns entries of the old list plus the item. The oldest entries go first, and the item is last. |
| Sessions.PushTrimBound | app/memory/session_store.py:13-17 | After `append_turn` a list holds between 1 and 2 * max turns entries. |
| Sessions.PushAllRecent | app/memory/session_store.py:13-17 | Appending several turns keeps the last 2 * max turns of old-plus-new entries. |
| Sessions.ManyTurnsKeepMostRecent | app/memory/session_store.py:13-17 | At least 2 * max turns appends leave exactly the most recent 2 * max turns, whatever was stored before. |
| Sessions.ParsedAppend | app/memory/session_store.py:19-27 | Reading a history is done entry by entry: the parse of a concatenation is the concatenation of the parses. |
| Sessions.ParsedKeepsAll | app/memory/session_store.py:22-26 | When every entry parses, `get_history` returns every entry, decoded, in order. |
| Sessions.ParsedFromEntries | app/memory/session_store.py:22-26 | Every value returned is the parse of a stored entry. |
| Sessions.TurnDecoderLoads | app/memory/session_store.py:14-27 | Reading a stored entry with the decoder of the turn encoding gives back the object {"role", "content"} it was written from, for every role and content, so the read-back lemmas that assume this parse hold of it. |
| Sessions.LastTurnReadBack | app/memory/session_store.py:13-27 | After `append_turn` the history read back ends with exactly the turn just written. |
| Sessions.UpdateKeepsOthers | app/memory/session_store.py:15-17 | Writing one user's key leaves every other user's list unchanged. |
| Sessions.UpdateKeepsBound | app/memory/session_store.py:15-17 | Writing a list within the bound keeps every list within it. |
| Sessions.SessionStore.constructor | app/memory/session_store.py:9-11 | A new store holds no lists. |
| Sessions.SessionStore.AppendTurn | app/memory/session_store.py:13-17 | Only the user's own list changes, and it becomes the pushed-and-trimmed list of the encoded turn. |
| Sessions.SessionStore.RPush | app/memory/session_store.py:15 | RPUSH appends the item at the tail of that key's list. |
| Sessions.SessionStore.LTrimKey | app/memory/session_store.py:17 | LTRIM replaces that key's list by its trimmed range. |
| Sessions.SessionStore.GetHistory | app/memory/session_store.py:19-27 | Returns the stored entries that parse, decoded, in stored order, skipping the rest. |
| Json.EscapeChar | app/memory/session_store.py:14 | An escaped character is never empty and never starts with a quote. |
| Json.LexEscaped | app/memory/session_store.py:14 | The decoder reads an escaped character back as that character. |
| Json.ParseEscaped | app/memory/session_store.py:14 | An escaped string followed by its closing quote decodes to the string. |
| Json.EncodeDecodeTurn | app/memory/session_store.py:14 | The document `append_turn` writes decodes to exactly its role and content. |
| Catalog.FormatPairShape | app/tools/catalog.py:20 | A formatted pair is stripped and lower-case. For a stripped, non-empty make and model it is the two lowered around one space. |
| Catalog.FormatPairClean | app/tools/catalog.py:20 | A formatted pair is stripped and has no capital letter. |
| Catalog.FormatPairJoined | app/tools/catalog.py:20 | A stripped, non-empty make and model format as the two lowered around one space. |
| Catalog.KnownPairsShape | app/tools/catalog.py:18-20 | One pair per row, each of that shape. |
| Catalog.KnownPairsCover | app/tools/catalog.py:18-20 | The normaliser's choices are exactly the catalogue's makes and models, formatted. |
| Catalog.AllHoldSnoc | app/tools/catalog.py:41 | Adding a condition to `and_(*filters)` adds it to the conjunction. |
| Catalog.CriterionMeaning | app/tools/catalog.py:24-39 | Each criterion's condition holds exactly when the car meets that criterion. |
| Catalog.ConditionsMeaning | app/tools/catalog.py:23-41 | All eight conditions together hold exactly when the car answers the query. |
| Catalog.ConditionsCount | app/tools/catalog.py:23-41 | At most eight conditions, and none exactly when nothing is asked. |
| Catalog.BuildFilters | app/tools/catalog.py:23-39 | The filters built hold of a car exactly when it answers the query, and there are none exactly when nothing is asked. |
| Catalog.SearchCatalog | app/tools/catalog.py:22-61 | Computes exactly `Search`: the matching cars, cheapest first, cut to the limit, projected. |
| Catalog.SearchSound | app/tools/catalog.py:22-61 | Every result is a matching car of the table. Results come in ascending price, and there are min(limit, number of matches) of them. Result i is the view of chosen car i, and the chosen cars are a sub-multiset of the matching cars, which are a sub-multiset of the table, so no car is repeated. |
| Catalog.SearchFromTable | app/tools/catalog.py:22-61 | There are min(limit, number of matches) results, each the view of a matching car of the table. |
| Catalog.SearchAscending | app/tools/catalog.py:42 | Results come in ascending price. |
| Catalog.SearchNoRepeats | app/tools/catalog.py:22-61 | Result i is the view of chosen car i, and the chosen cars never repeat a car more often than the matching cars, or the table, hold it. |
| Catalog.SearchComplete | app/tools/catalog.py:41-45 | A matching car left out means the result is full and no result costs more than that car. |
| Catalog.SearchUnfiltered | app/tools/catalog.py:41 | With nothing asked, every car is eligible. |
| Catalog.SearchByMakeExample | tests/test_catalog_search.py:7-22 | Searching a sentra and a mazda3 by make "nissan" returns exactly the sentra. |
| Rag.UsableSpec | app/tools/rag.py:31-43 | Only points with truthy content give passages, and every such point gives one. |
| Rag.UsableHits | app/tools/rag.py:30-43 | The loop over the hits computes exactly the passages of the usable points, in store order. |
| Rag.RetrieveKavakKnowledge | app/tools/rag.py:15-79 | The method computes exactly `Retrieve`: `query_points`, then `search`, then the database, where any vector-tier exception leads to the database. |
| Rag.VectorResultSpec | app/tools/rag.py:44-45 | A vector answer has truthy content only and at most top_k passages, and some whenever top_k >= 1. |
| Rag.QueryPointsFirst | app/tools/rag.py:22-45 | When `query_points` gives usable passages, they are the answer, whatever the database holds. |
| Rag.SearchSecond | app/tools/rag.py:48-70 | `search` answers when `query_points` is missing or gives nothing usable. |
| Rag.WhenFallback | app/tools/rag.py:17-79 | The database is used exactly on a connection failure, a `query_points` exception, or no usable passage from either call. |
| Rag.FallbackSpec | app/tools/rag.py:77-79 | The fallback returns the top_k newest rows, newest first, with score 0.0, and no row more often than it is stored. No row left out is newer than one returned. |
| Rag.FallbackRowsSpec | app/tools/rag.py:77-79 | `ORDER BY id DESC LIMIT top_k` picks min(top_k, row count) stored rows, newest first, as a sub-multiset of the stored rows. |
| Rag.FallbackRowsNewest | app/tools/rag.py:77-79 | No row the fallback leaves out is newer than a row it picks. |
| Rag.FallbackEdges | app/tools/rag.py:77-79 | No chunks give no passages, and a failing query is passed on. |
| Rag.RetrieveBound | app/tools/rag.py:15-79 | For top_k >= 0 no path returns more than top_k passages. |
| Orchestrator.ToolDefsDistinct | app/llm/orchestrator.py:18-52 | Exactly four tools, with four distinct names in the order offered. |
| Orchestrator.DispatchKnowsOfferedTools | app/llm/orchestrator.py:86-124 | A call whose arguments parse gets "unknown_tool" exactly when its name is not an offered tool. |
| Orchestrator.DispatchParsesFirst | app/llm/orchestrator.py:82-83 | Unparseable arguments raise before the name is looked at. |
| Orchestrator.NormalizeToolFromCatalog | app/llm/orchestrator.py:112-115 | Every candidate the normaliser tool returns is the formatted make and model of a car of the catalogue table. |
| Orchestrator.DispatchCall | app/llm/orchestrator.py:82-124 | The handler for one tool call, calling the tools' own methods, computes exactly `Dispatch`. |
| Orchestrator.KeptTurnsSpec | app/llm/orchestrator.py:58-60 | A window entry that is not an object makes the turn loop raise, and only then. Otherwise kept turn k is the turn of the k-th user or assistant entry with content, so the turns keep the window's order and each entry gives at most one. |
| Orchestrator.KeptTurnsFromWindow | app/llm/orchestrator.py:58-60 | The loop raises exactly for a non-object entry. Otherwise every kept turn is the turn of a window entry, every conversation-turn entry is kept, and there are at most as many turns as entries. |
| Orchestrator.KeptTurnsInOrder | app/llm/orchestrator.py:58-60 | Kept turn k is the turn of the entry at the k-th position, in increasing order, that is a user or assistant turn with content. |
| Orchestrator.KeptTurnsPrefixFails | app/llm/orchestrator.py:58-60 | One non-object entry makes the whole window raise. |
| Orchestrator.InitialTranscriptSpec | app/llm/orchestrator.py:57-61 | The transcript starts with the system prompt and ends with the user message. Between them, entry k is the turn of the k-th conversation-turn entry of the window, at most 2 * max turns of them. It raises exactly for a non-object window entry. |
| Orchestrator.BuildTranscript | app/llm/orchestrator.py:57-61 | The loop building the transcript computes exactly `InitialTranscript`. |
| Orchestrator.ApplyCallsSpec | app/llm/orchestrator.py:81-132 | A round succeeds exactly when every call does. It then appends one tool message per call, in call order. |
| Orchestrator.ApplyCallsFails | app/llm/orchestrator.py:81-132 | The first failing call decides the round's exception. |
| Orchestrator.RunToolCalls | app/llm/orchestrator.py:81-132 | The loop over the calls computes exactly `ApplyCalls`. |
| Orchestrator.RunAgent | app/llm/orchestrator.py:54-136 | The method's reply is exactly `RunAgentSpec`'s. |
| Orchestrator.AgentPrompts | app/llm/orchestrator.py:65-132 | At most `steps` completions (6 in `run_agent`), the first with the initial transcript. Each later transcript follows the one before by a successful tool round. |
| Orchestrator.AgentStops | app/llm/orchestrator.py:76-77 | The first completion without tool calls ends the run with its content stripped. |
| Orchestrator.AgentExhausted | app/llm/orchestrator.py:65-136 | A model that always calls tools that never raise gets the fixed apology, and no exception, after exactly `steps` completions (6 in `run_agent`). |
| Orchestrator.AgentToolFailure | app/llm/orchestrator.py:81-124 | A tool exception is `run_agent`'s exception. |
| Conversation.RecordKeepsBound | app/services/conversation_service.py:19-24 | Handling a message keeps every list within 2 * max turns. |
| Conversation.PushTwiceEnds | app/services/conversation_service.py:21-24 | After two appends the list ends with the two items, in order. |
| Conversation.TwoTurnsReadBack | app/services/conversation_service.py:21-24 | Two appends are read back last, in order. |
| Conversation.RecordReadBack | app/services/conversation_service.py:19-24 | The history ends with the user item, then the assistant item when there is one. |
| Conversation.RecordTurnsReadBack | app/services/conversation_service.py:19-24 | Two written turns come back as exactly those role/content objects, in order. |
| Conversation.RespondReadBack | app/services/conversation_service.py:19-27 | After a reply, the history ends with the user turn and then the assistant reply. |
| Conversation.RespondFailureKeepsUserTurn | app/services/conversation_service.py:21-23 | After an agent exception, the user turn is still recorded, last. |
| Conversation.RespondKeepsOthers | app/services/conversation_service.py:19-27 | Other users' histories do not change. |
| Conversation.RespondKeepsBound | app/services/conversation_service.py:19-27 | Every list stays within 2 * HISTORY_MAX_TURNS. |
| Conversation.RecordInTwoWrites | app/services/conversation_service.py:21-24 | The recorded lists are the two `append_turn` writes in turn: the user item first, then the assistant item onto the list as the first write left it. |
| Conversation.ConversationService.constructor | app/services/conversation_service.py:12-13 | The service keeps the session store it is given. |
| Conversation.ConversationService.HandleMessage | app/services/conversation_service.py:19-27 | The reply is the agent's answer on the history read before the user turn is appended, and the lists become those of `Respond`. |
| Worker.StepAck | app/worker.py:30-47 | An entry is acknowledged exactly when its fields decode, the handler replies and the reply is sent. Otherwise the acked ids are unchanged. |
| Worker.UndecodableSkipped | app/worker.py:31-33 | A missing or non-UTF-8 field changes nothing. |
| Worker.SendFailureLeavesPending | app/worker.py:35-42 | When sending fails, the turns are recorded but the entry stays pending. |
| Worker.ProcessAppend | app/worker.py:28-29 | The loop over the entries processes them in sequence. |
| Worker.FailureIsolated | app/worker.py:45-47 | A failing entry does not stop the batch, and the entries after it continue from what it left. |
| Worker.ProcessAcks | app/worker.py:28-47 | A batch only appends to the acked ids, at most one per entry, in read order. |
| Worker.EmptyBatch | app/worker.py:24-26 | An empty read changes nothing. |
| Worker.StreamQueue.constructor | app/worker.py:17-18 | A new queue has acknowledged nothing. |
| Worker.StreamQueue.Ack | app/worker.py:42 | XACK records the id. |
| Worker.ProcessEntry | app/worker.py:30-47 | Handling one entry leaves the lists and acked ids of `Step`. |
| Worker.ProcessEntries | app/worker.py:29-47 | The inner loop leaves the state of `Process` over the stream's entries. |
| Worker.ProcessBatch | app/worker.py:28-47 | The outer loop leaves the state of `Process` over all the batch's entries, stream by stream. |
| Ingest.ParagraphsShape | app/scripts/ingest_kavak_knowledge.py:27 | Every paragraph is stripped, non-empty and free of newlines. |
| Ingest.BlankTextHasNoParagraphs | app/scripts/ingest_kavak_knowledge.py:27 | Blank text has no paragraphs. |
| Ingest.OneParagraph | app/scripts/ingest_kavak_knowledge.py:27 | A single clean line is its own only paragraph. |
| Ingest.AbsorbSpec | app/scripts/ingest_kavak_knowledge.py:31-37 | A paragraph that fits joins the buffer after a newline, or starts an empty buffer. Otherwise the buffer is emitted and the paragraph starts the next one. The buffer stays stripped and non-empty. |
| Ingest.FoldJoin | app/scripts/ingest_kavak_knowledge.py:30-37 | The emitted chunks and the buffer, joined by newlines, are the paragraphs joined by newlines. |
| Ingest.FoldFits | app/scripts/ingest_kavak_knowledge.py:30-37 | Every chunk is a single paragraph or at most max_chars + 1 long. |
| Ingest.FoldGreedy | app/scripts/ingest_kavak_knowledge.py:30-37 | A chunk closes only when the next paragraph would not fit beside it. |
| Ingest.ChunksSpec | app/scripts/ingest_kavak_knowledge.py:28-42 | No chunk is empty. The chunks rejoin to the paragraphs and respect the size bound or are single paragraphs. Packing is greedy, and there are no chunks exactly when there are no paragraphs. |
| Ingest.ChunkTextSpecProps | app/scripts/ingest_kavak_knowledge.py:22-42 | Those properties for `chunk_text` on any text. |
| Ingest.BlankTextNoChunks | app/scripts/ingest_kavak_knowledge.py:22-42 | A blank page gives no chunks. |
| Ingest.LongParagraphKept | app/scripts/ingest_kavak_knowledge.py:31-40 | A paragraph longer than max_chars becomes one chunk of its own, whole. |
| Ingest.ChunkParagraphs | app/scripts/ingest_kavak_knowledge.py:28-42 | The loop and the final flush compute exactly `Chunks`. |
| Ingest.ChunkText | app/scripts/ingest_kavak_knowledge.py:22-42 | The method computes exactly `ChunkTextSpec`. |
| Ingest.StablePointId | app/scripts/ingest_kavak_knowledge.py:45-51 | The id fits in 64 bits. |
| Ingest.StablePointIdDigits | app/scripts/ingest_kavak_knowledge.py:50-51 | The id is the value of the first 16 hex digits of the digest: the leading digit times 16^15 plus the other fifteen. |
| Seed.StripStripped | app/scripts/seed_catalog.py:13-14 | `_strip` leaves nothing to strip. |
| Seed.WithoutCommas | app/scripts/seed_catalog.py:23 | Removing commas leaves none, and never lengthens. |
| Seed.ParseRender | app/scripts/seed_catalog.py:24 | Reading back a written numeral gives the numeral. |
| Seed.Truncate | app/scripts/seed_catalog.py:24 | `int()` on a float truncates toward zero. |
| Seed.IntIsTruncatedDecimal | app/scripts/seed_catalog.py:17-38 | `_to_int` succeeds exactly when `_to_decimal` does, and is its value truncated toward zero. |
| Seed.CommasIgnored | app/scripts/seed_catalog.py:22-23 | Commas between digit groups are ignored by both conversions. |
| Seed.ReadPlain | app/scripts/seed_catalog.py:17-38 | Text with nothing to strip and no commas converts by reading its numeral. |
| Seed.DigitsRead | app/scripts/seed_catalog.py:17-38 | A run of digits converts to its value. |
| Seed.ZeroFractionRead | app/scripts/seed_catalog.py:22-24 | Digits followed by ".0" convert to the digits' value. |
| Seed.ToBoolInsensitive | app/scripts/seed_catalog.py:41-42 | `_to_bool` ignores case and surrounding whitespace. |
| Seed.ReadBoolWords | app/scripts/seed_catalog.py:45-49 | The true words read True, the false words read False, and anything else reads None. |
| Seed.CapitalWordsRead | app/scripts/seed_catalog.py:42-47 | Capitals, accented ones included, lower to the listed words. |
| Seed.CleanedSpec | app/scripts/seed_catalog.py:105 | Cleaning keeps exactly the filled values under their keys. |
| Seed.CleanedFilled | app/scripts/seed_catalog.py:105 | No cleaned feature is empty text. |
| Seed.LookupCleanedAbsent | app/scripts/seed_catalog.py:105 | A key no slot carries is not found after cleaning. |
| Seed.ExternalIdIsStockId | app/scripts/seed_catalog.py:94-113 | The external id is the converted stock_id column. |
| Seed.CityOrDefault | app/scripts/seed_catalog.py:91 | City is never empty: the column when it has text, "N/A" otherwise. |
| Seed.Assemble | app/scripts/seed_catalog.py:108-124 | A car is built exactly when the row passes the quality filter. |
| Seed.ReadRowStripped | app/scripts/seed_catalog.py:80-81 | The text columns are read stripped. |
| Seed.ReadRowCity | app/scripts/seed_catalog.py:91 | City is the stripped column or "N/A", never empty. |
| Seed.ReadRowFallbacks | app/scripts/seed_catalog.py:85-88 | price_mxn is used only when price is missing or zero, and mileage_km only when km is. |
| Seed.ReadRowFeatures | app/scripts/seed_catalog.py:94-105 | Features hold filled values only, and the stock id is the converted column. |
| Seed.AssembleNames | app/scripts/seed_catalog.py:114-115 | Make and model are kept as read, not empty. |
| Seed.AssembleKeeps | app/scripts/seed_catalog.py:112-119 | Year, price, city, mileage and external id are kept, and year and price are not zero. |
| Seed.AssembleOptional | app/scripts/seed_catalog.py:120-123 | Empty optional columns and empty features become None, and others are kept. |
| Seed.RowMapping | app/scripts/seed_catalog.py:80-124 | A row is skipped exactly when it fails the filter. An added car has stripped, non-empty make, model and city, and the stock id as its external id. |
| Seed.SeededSpec | app/scripts/seed_catalog.py:77-127 | Every added car comes from a row, and every row that maps adds its car. Car k is the car of the k-th row that maps, so the cars keep row order and each row adds at most one. |
| Seed.SeededFromRows | app/scripts/seed_catalog.py:77-127 | Every added car comes from a row. When every row maps, there is one car per row. |
| Seed.SeededInOrder | app/scripts/seed_catalog.py:77-127 | Car k is the car of the k-th row, in row order, that maps. |
| Seed.SeededAppend | app/scripts/seed_catalog.py:77-127 | Seeding two batches adds the first's cars, then the second's. |
| Seed.LoaderAddsOnlyCompleteRows | app/scripts/seed_catalog.py:108-126 | Every added car comes from a row that passes the filter. |
| Seed.SeedWith | app/scripts/seed_catalog.py:74-127 | The loop returns the cars of `Seeded`, counts every row, and counts inserted = cars added <= rows. |
| Seed.SeedRows | app/scripts/seed_catalog.py:74-127 | The same for the loader's own row conversion. |

## Left out

- I/O is outside the model: HTTP, Twilio, the OpenAI client, Redis and Postgres
  connections, BeautifulSoup, embeddings and Qdrant. Each appears as a parameter or as
  a datatype of its outcomes:
  - the chat model is a function of the transcript;
  - `json.loads` is a partial function;
  - the pydantic models are validators;
  - WRatio is a scorer;
  - SHA-256 is a function to 64 hex digits;
  - the vector tier is `VectorTier`;
  - `send_whatsapp` is a boolean function.
- Concurrency, asyncio and `worker_loop`'s endless `while True` are not modelled: the
  model covers one batch. So are consumer-group creation and the blocking read.
  Exceptions from `ack` itself are not modelled.
- `fetch_kavak_page`, the knowledge ingestion `main` and the catalogue loader's
  `_sniff_delimiter`, truncate, commit and final summary print are I/O and are left out.
  `session.add` is modelled as the returned list of cars.
- Floating point is not modelled: exact reals stand for `float` and for `Decimal`.
  - The 28-digit context of `Decimal` arithmetic is not modelled (the loan figures are
    exact before quantisation).
  - The trailing zeros a `Decimal` keeps are not modelled.
  - `float(str(x))` round trips in the tool dispatch are not modelled.
- Seed.ParseNumeral: accepts only an optional sign, digits and an optional fraction.
  - Exponents, underscores, "inf", "nan" and other inputs `float()`/`Decimal()` accept
    read as None.
  - So does the OverflowError of `int(float("inf"))`.
- Seed.ToInt: ignores `float` precision loss for integers above 2^53.
- Text.Lower: lower-cases ASCII and the Latin-1 capitals only; other Unicode case
  mappings are not modelled.
- Catalog.SameText: `ILIKE` is modelled as equality up to case, without `%`/`_`
  wildcards.
- Catalog.Select: the order among cars of equal price is left to the database, and the
  model fixes one. A negative LIMIT is excluded by the argument schema (`ValidLimit`).
- Catalog.SearchCatalog: requires a limit from 1 to 10. That is what the argument
  schema lets through from its only caller, `run_agent`. A limit of 0 or below is not
  modelled. A negative top_k for retrieval is modelled as the database's error.
- HISTORY_MAX_TURNS is assumed to be at least 1 (`EnvValid`, `SessionStore`'s
  constructor). `Sessions.LTrimZero` states what a value of 0 would do.
- The `json.dumps` of tool outputs and of the assistant's tool calls is not modelled; the
  transcript holds the outputs as values.
- Logging, the prompts' text, the route handlers and the Twilio webhook are not modelled.
  `ConversationService.depends` and `from_number` in `handle_message` are only plumbing.
- Normalize.BestMatch: the order `process.extract` gives to choices of equal score is
  fixed by the model.
- The typo test of the normaliser depends on WRatio's actual scores and cannot be stated
  for a scorer given as a parameter. Its exact-match test is stated for any tokens
  (`Normalize.NormalizeExactPair`).
- The conversion examples in the loader's comments ("77,400", "461999.0") are stated for
  all digit strings (`Seed.DigitsRead`, `Seed.ZeroFractionRead`, `Seed.CommasIgnored`)
  rather than as literal cases.
- Json.DecodeTurn: decodes only documents of the form `append_turn` writes. Escapes of
  UTF-16 surrogates and any other JSON are left to the `json.loads` parameter.
