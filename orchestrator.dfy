/** `run_agent`: the bounded tool-calling loop around the chat model. The model, the
    JSON parser of the tool arguments and the argument validators are parameters
    (the Env); the four tools are the models of the other modules. */
module Orchestrator {

  import opened Common
  import opened Text
  import opened Json
  import opened Models
  import opened Catalog
  import opened Financing
  import opened Normalize
  import opened Rag

  /** A tool call the model asks for; `arguments` is the raw JSON text, if any. */
  datatype ToolCall = ToolCall(id: string, name: string, arguments: Option<string>)

  /** The first choice of a completion. No `tool_calls` and an empty list are both []. */
  datatype Completion = Completion(content: Option<string>, toolCalls: seq<ToolCall>)

  /** What a tool returns, before `json.dumps`. */
  datatype ToolOutput =
    | CatalogResult(cars: seq<CarView>)
    | FinancingResult(options: seq<FinancingOption>)
    | KnowledgeResult(hits: seq<Hit>)
    | NormalizeResult(norm: NormalizedMakeModel)
    | UnknownTool

  /** One entry of the transcript sent to the model. */
  datatype Message =
    | Turn(role: string, content: Json)
    | AssistantCalls(text: string, calls: seq<ToolCall>)
    | ToolReply(toolCallId: string, output: ToolOutput)

  /** The exceptions run_agent lets through to its caller. */
  datatype Failure =
    | HistoryEntryNotObject
    | CompletionFailed(reason: string)
    | ArgumentsNotJson(callId: string)
    | ArgumentsInvalid(callId: string)
    | FinancingFailed(error: FinancingError)
    | KnowledgeFailed(reason: string)

  datatype FinancingArgs = FinancingArgs(priceMxn: real, downPayment: real, annualRate: real)
  datatype RagArgs = RagArgs(query: string, topK: int)
  datatype NormalizeArgs = NormalizeArgs(make: Option<string>, model: Option<string>)

  /** Everything run_agent depends on besides its arguments: the system prompt,
      HISTORY_MAX_TURNS, the chat model as a function of the transcript, `json.loads`,
      the pydantic models (None when validation fails), and what the tools see:
      the cars table, the rows of its SELECT DISTINCT make, model, the vector tier
      for a question and top_k, the knowledge table and the fuzzy scorer. */
  datatype Env = Env(
    systemPrompt: string,
    maxTurns: nat,
    complete: seq<Message> -> Result<Completion, string>,
    parse: string -> Option<Json>,
    catalogArgs: Json -> Option<CatalogQuery>,
    financingArgs: Json -> Option<FinancingArgs>,
    ragArgs: Json -> Option<RagArgs>,
    normalizeArgs: Json -> Option<NormalizeArgs>,
    table: seq<Car>,
    pairRows: seq<(string, string)>,
    vector: (string, int) -> VectorTier,
    knowledge: Result<seq<KnowledgeChunk>, string>,
    scorer: Scorer)

  /** HISTORY_MAX_TURNS is at least 1, ToolCatalogArgs admits limits 1..10 only, and
      the pair rows are what `SELECT DISTINCT make, model` returns on the cars table
      the catalogue search reads. */
  ghost predicate EnvValid(env: Env)
  {
    env.maxTurns >= 1 &&
    (forall j :: env.catalogArgs(j).Some? ==> ValidLimit(env.catalogArgs(j).value)) &&
    DistinctPairsOf(env.pairRows, env.table)
  }

  // ---------------------------------------------------------------------------
  // _tool_defs

  /** Which pydantic model describes a tool's parameters. */
  datatype ArgsModel = CatalogArgsModel | FinancingArgsModel | RagArgsModel | NormalizeArgsModel

  datatype ToolDef = ToolDef(name: string, parameters: ArgsModel)

  const SearchCatalogName: string := "search_catalog"
  const CalcFinancingName: string := "calc_financing"
  const RetrieveKnowledgeName: string := "retrieve_kavak_knowledge"
  const NormalizeName: string := "normalize_make_model"

  function ToolDefs(): seq<ToolDef>
  {
    [ToolDef(SearchCatalogName, CatalogArgsModel),
     ToolDef(CalcFinancingName, FinancingArgsModel),
     ToolDef(RetrieveKnowledgeName, RagArgsModel),
     ToolDef(NormalizeName, NormalizeArgsModel)]
  }

  function ToolNames(): seq<string>
  {
    seq(|ToolDefs()|, i requires 0 <= i < |ToolDefs()| => ToolDefs()[i].name)
  }

  /** Four tools with four different names. */
  lemma ToolDefsDistinct()
    ensures |ToolDefs()| == 4
    ensures ToolNames() == [SearchCatalogName, CalcFinancingName, RetrieveKnowledgeName, NormalizeName]
    ensures forall i, j :: 0 <= i < j < 4 ==> ToolNames()[i] != ToolNames()[j]
  {
    assert SearchCatalogName[0] == 's' && CalcFinancingName[0] == 'c';
    assert RetrieveKnowledgeName[0] == 'r' && NormalizeName[0] == 'n';
  }

  // ---------------------------------------------------------------------------
  // Dispatch of one tool call

  /** `tc.function.arguments or "{}"`. */
  function ArgumentsText(call: ToolCall): string
  {
    if call.arguments.Some? && call.arguments.value != "" then call.arguments.value else "{}"
  }

  /** The body of the loop over tool calls: parse the arguments, then branch on the
      name; an unknown name yields `{"error": "unknown_tool"}`, every exception
      propagates. */
  function Dispatch(env: Env, call: ToolCall): Result<ToolOutput, Failure>
    requires EnvValid(env)
  {
    match env.parse(ArgumentsText(call))
    case None => Err(ArgumentsNotJson(call.id))
    case Some(args) =>
      if call.name == SearchCatalogName then
        match env.catalogArgs(args)
        case None => Err(ArgumentsInvalid(call.id))
        case Some(q) => Ok(CatalogResult(Search(env.table, q)))
      else if call.name == CalcFinancingName then
        match env.financingArgs(args)
        case None => Err(ArgumentsInvalid(call.id))
        case Some(a) =>
          match Calc(a.priceMxn, a.downPayment, a.annualRate)
          case Err(e) => Err(FinancingFailed(e))
          case Ok(options) => Ok(FinancingResult(options))
      else if call.name == RetrieveKnowledgeName then
        match env.ragArgs(args)
        case None => Err(ArgumentsInvalid(call.id))
        case Some(a) =>
          match Retrieve(env.vector(a.query, a.topK), env.knowledge, a.topK)
          case Err(e) => Err(KnowledgeFailed(e))
          case Ok(hits) => Ok(KnowledgeResult(hits))
      else if call.name == NormalizeName then
        match env.normalizeArgs(args)
        case None => Err(ArgumentsInvalid(call.id))
        case Some(a) => Ok(NormalizeResult(NormalizeMakeModel(a.make, a.model, KnownPairs(env.pairRows), env.scorer)))
      else
        Ok(UnknownTool)
  }

  /** The dispatch branches on exactly the offered names: a call whose arguments parse
      is answered "unknown_tool" if and only if its name is not one of them. */
  lemma DispatchKnowsOfferedTools(env: Env, call: ToolCall)
    requires EnvValid(env) && env.parse(ArgumentsText(call)).Some?
    ensures Dispatch(env, call) == Ok(UnknownTool) <==> call.name !in ToolNames()
  {
    ToolDefsDistinct();
  }

  /** The arguments are parsed before the name is looked at: unparseable arguments
      raise even for an unknown tool. */
  lemma DispatchParsesFirst(env: Env, call: ToolCall)
    requires EnvValid(env) && env.parse(ArgumentsText(call)).None?
    ensures Dispatch(env, call) == Err(ArgumentsNotJson(call.id))
  {
  }

  /** The normaliser tool chooses among the catalogue's own cars: every candidate it
      returns is the formatted make and model of a car of the table. */
  lemma NormalizeToolFromCatalog(env: Env, call: ToolCall)
    requires EnvValid(env) && call.name == NormalizeName
    ensures Dispatch(env, call).Ok? && Dispatch(env, call).value.NormalizeResult? ==>
      var candidates := Dispatch(env, call).value.norm.candidates;
      forall k :: 0 <= k < |candidates| ==> FromCatalog(candidates[k], env.table)
  {
    var parsed := env.parse(ArgumentsText(call));
    if parsed.Some? && env.normalizeArgs(parsed.value).Some? {
      var a := env.normalizeArgs(parsed.value).value;
      var pairs := KnownPairs(env.pairRows);
      KnownPairsCover(env.pairRows, env.table);
      var r := NormalizeMakeModel(a.make, a.model, pairs, env.scorer);
      ToolDefsDistinct();
      assert Dispatch(env, call) == Ok(NormalizeResult(r));
      if (Truthy(a.make) || Truthy(a.model)) && pairs != [] {
        NormalizeMatched(a.make, a.model, pairs, env.scorer);
        forall k | 0 <= k < |r.candidates| ensures FromCatalog(r.candidates[k], env.table) {
          var m :| 0 <= m < |pairs| && pairs[m] == r.candidates[k];
        }
      }
    }
  }

  /** The tool call handler, calling the tools' own implementations. */
  method DispatchCall(env: Env, call: ToolCall) returns (out: Result<ToolOutput, Failure>)
    requires EnvValid(env)
    ensures out == Dispatch(env, call)
  {
    var parsed := env.parse(ArgumentsText(call));
    if parsed.None? {
      return Err(ArgumentsNotJson(call.id));
    }
    var args := parsed.value;
    if call.name == SearchCatalogName {
      var q := env.catalogArgs(args);
      if q.None? {
        return Err(ArgumentsInvalid(call.id));
      }
      var cars := SearchCatalog(env.table, q.value);
      out := Ok(CatalogResult(cars));
    } else if call.name == CalcFinancingName {
      var a := env.financingArgs(args);
      if a.None? {
        return Err(ArgumentsInvalid(call.id));
      }
      var options := CalcFinancing(a.value.priceMxn, a.value.downPayment, a.value.annualRate);
      if options.Err? {
        return Err(FinancingFailed(options.error));
      }
      out := Ok(FinancingResult(options.value));
    } else if call.name == RetrieveKnowledgeName {
      var a := env.ragArgs(args);
      if a.None? {
        return Err(ArgumentsInvalid(call.id));
      }
      var hits := RetrieveKavakKnowledge(env.vector(a.value.query, a.value.topK), env.knowledge, a.value.topK);
      if hits.Err? {
        return Err(KnowledgeFailed(hits.error));
      }
      out := Ok(KnowledgeResult(hits.value));
    } else if call.name == NormalizeName {
      var a := env.normalizeArgs(args);
      if a.None? {
        return Err(ArgumentsInvalid(call.id));
      }
      var pairs := KnownPairs(env.pairRows);
      out := Ok(NormalizeResult(NormalizeMakeModel(a.value.make, a.value.model, pairs, env.scorer)));
    } else {
      out := Ok(UnknownTool);
    }
  }

  // ---------------------------------------------------------------------------
  // The initial transcript

  /** `m.get("role") in ("user", "assistant") and m.get("content")`. */
  predicate IsConversationTurn(fields: map<string, Json>)
  {
    var role := Get(fields, "role");
    var content := Get(fields, "content");
    role.Some? && (role.value == Str("user") || role.value == Str("assistant")) &&
    content.Some? && JsonTruthy(content.value)
  }

  function TurnOf(fields: map<string, Json>): Message
    requires IsConversationTurn(fields)
  {
    Turn(fields["role"].s, fields["content"])
  }

  /** The message an entry of the window contributes, when it is a conversation turn. */
  function TurnEntry(j: Json): Option<Message>
  {
    if j.Obj? && IsConversationTurn(j.fields) then Some(TurnOf(j.fields)) else None
  }

  /** The loop over the history window: keep the conversation turns; an entry that is
      not an object has no `get` and raises. */
  function KeptTurns(window: seq<Json>): (r: Result<seq<Message>, Failure>)
    ensures r.Err? ==> r == Err(HistoryEntryNotObject)
  {
    if window == [] then Ok([])
    else
      match KeptTurns(window[..|window| - 1])
      case Err(e) => Err(e)
      case Ok(kept) =>
        match window[|window| - 1]
        case Obj(fields) => Ok(if IsConversationTurn(fields) then kept + [TurnOf(fields)] else kept)
        case _ => Err(HistoryEntryNotObject)
  }

  /** `history[-(2 * HISTORY_MAX_TURNS):]`. */
  function Window(history: seq<Json>, maxTurns: nat): seq<Json>
  {
    LastN(history, 2 * maxTurns)
  }

  function InitialTranscript(env: Env, history: seq<Json>, userMessage: string): Result<seq<Message>, Failure>
  {
    match KeptTurns(Window(history, env.maxTurns))
    case Err(e) => Err(e)
    case Ok(kept) => Ok([Turn("system", Str(env.systemPrompt))] + kept + [Turn("user", Str(userMessage))])
  }

  predicate IsObject(j: Json)
  {
    j.Obj?
  }

  /** `m` is the conversation turn held by some entry of the window. */
  ghost predicate FromWindow(window: seq<Json>, m: Message)
  {
    exists i :: 0 <= i < |window| && window[i].Obj? && IsConversationTurn(window[i].fields) && m == TurnOf(window[i].fields)
  }

  /** The history turns that reach the model: when every entry of the window is an
      object, exactly its conversation turns, in order; otherwise the call raises. */
  lemma KeptTurnsSpec(window: seq<Json>)
    ensures KeptTurns(window).Err? <==> exists i :: 0 <= i < |window| && !IsObject(window[i])
    ensures KeptTurns(window).Ok? ==>
      var kept, idx := KeptTurns(window).value, SomeIndices(window, TurnEntry);
      |kept| == |idx| && forall k :: 0 <= k < |idx| ==> TurnEntry(window[idx[k]]) == Some(kept[k])
  {
    KeptTurnsFromWindow(window);
    KeptTurnsInOrder(window);
  }

  /** The call raises exactly when an entry of the window is not an object; otherwise
      every kept turn is the turn of an entry, and every conversation-turn entry is
      kept. */
  lemma {:induction false} KeptTurnsFromWindow(window: seq<Json>)
    ensures KeptTurns(window).Err? <==> exists i :: 0 <= i < |window| && !IsObject(window[i])
    ensures KeptTurns(window).Ok? ==>
      var kept := KeptTurns(window).value;
      |kept| <= |window| &&
      (forall m :: m in kept ==> FromWindow(window, m)) &&
      (forall i :: 0 <= i < |window| && window[i].Obj? && IsConversationTurn(window[i].fields) ==>
         TurnOf(window[i].fields) in kept)
  {
    if window != [] {
      var init := window[..|window| - 1];
      var last := window[|window| - 1];
      KeptTurnsFromWindow(init);
      if KeptTurns(init).Err? {
        var i :| 0 <= i < |init| && !IsObject(init[i]);
        assert window[i] == init[i];
      } else {
        var kept := KeptTurns(init).value;
        forall i | 0 <= i < |init| ensures IsObject(window[i]) {
          assert window[i] == init[i];
        }
        if last.Obj? {
          forall i | 0 <= i < |window| ensures IsObject(window[i]) {
            if i < |init| { assert window[i] == init[i]; }
          }
          var r := KeptTurns(window).value;
          forall m | m in r ensures FromWindow(window, m)
          {
            if m in kept {
              assert FromWindow(init, m);
              var i :| 0 <= i < |init| && init[i].Obj? && IsConversationTurn(init[i].fields) && m == TurnOf(init[i].fields);
              assert window[i] == init[i];
            } else {
              assert window[|window| - 1] == last;
            }
          }
          forall i | 0 <= i < |window| && window[i].Obj? && IsConversationTurn(window[i].fields)
            ensures TurnOf(window[i].fields) in r
          {
            if i < |init| { assert window[i] == init[i]; }
          }
        } else {
          assert !IsObject(window[|window| - 1]);
        }
      }
    }
  }

  /** Kept turn k is the turn of the k-th conversation-turn entry of the window: the
      turns keep the window's order, and each entry gives at most one. */
  lemma {:induction false} KeptTurnsInOrder(window: seq<Json>)
    ensures KeptTurns(window).Ok? ==>
      var kept, idx := KeptTurns(window).value, SomeIndices(window, TurnEntry);
      |kept| == |idx| && forall k :: 0 <= k < |idx| ==> TurnEntry(window[idx[k]]) == Some(kept[k])
  {
    if window != [] && KeptTurns(window).Ok? {
      var init := window[..|window| - 1];
      KeptTurnsInOrder(init);
      var kept0, idx0 := KeptTurns(init).value, SomeIndices(init, TurnEntry);
      assert SomeIndices(window, TurnEntry) == idx0 + (if TurnEntry(window[|window| - 1]).Some? then [|window| - 1] else []);
      forall k | 0 <= k < |idx0| ensures window[idx0[k]] == init[idx0[k]] {
      }
    }
  }

  /** The transcript starts with the system prompt and ends with the new user message;
      in between are the conversation turns of the window, in window order, at most
      2 * HISTORY_MAX_TURNS of them, so no entry older than the window reaches the
      model. The call raises exactly when an entry of the window is not an object. */
  lemma InitialTranscriptSpec(env: Env, history: seq<Json>, userMessage: string)
    requires env.maxTurns >= 1
    ensures InitialTranscript(env, history, userMessage).Ok? ==>
      var t := InitialTranscript(env, history, userMessage).value;
      var window := Window(history, env.maxTurns);
      var idx := SomeIndices(window, TurnEntry);
      2 <= |t| <= 2 * env.maxTurns + 2 &&
      t[0] == Turn("system", Str(env.systemPrompt)) &&
      t[|t| - 1] == Turn("user", Str(userMessage)) &&
      |t| == |idx| + 2 && (forall k :: 0 <= k < |idx| ==> TurnEntry(window[idx[k]]) == Some(t[k + 1]))
    ensures InitialTranscript(env, history, userMessage).Err? <==>
      exists i :: 0 <= i < |Window(history, env.maxTurns)| && !IsObject(Window(history, env.maxTurns)[i])
  {
    var window := Window(history, env.maxTurns);
    KeptTurnsFromWindow(window);
    KeptTurnsInOrder(window);
    if KeptTurns(window).Ok? {
      var kept := KeptTurns(window).value;
      var t := InitialTranscript(env, history, userMessage).value;
      assert t == [Turn("system", Str(env.systemPrompt))] + kept + [Turn("user", Str(userMessage))];
      assert forall k :: 0 <= k < |kept| ==> t[k + 1] == kept[k];
    }
  }

  /** The loop building the initial transcript. */
  method BuildTranscript(env: Env, history: seq<Json>, userMessage: string) returns (res: Result<seq<Message>, Failure>)
    ensures res == InitialTranscript(env, history, userMessage)
  {
    var window := Window(history, env.maxTurns);
    var messages := [Turn("system", Str(env.systemPrompt))];
    for i := 0 to |window|
      invariant KeptTurns(window[..i]).Ok?
      invariant messages == [Turn("system", Str(env.systemPrompt))] + KeptTurns(window[..i]).value
    {
      assert window[..i + 1][..i] == window[..i];
      var m := window[i];
      if !m.Obj? {
        KeptTurnsPrefixFails(window, i);
        return Err(HistoryEntryNotObject);
      }
      if IsConversationTurn(m.fields) {
        messages := messages + [TurnOf(m.fields)];
      }
    }
    assert window[..|window|] == window;
    messages := messages + [Turn("user", Str(userMessage))];
    res := Ok(messages);
  }

  /** Once an entry is not an object, the whole window raises. */
  lemma {:induction false} KeptTurnsPrefixFails(window: seq<Json>, i: nat)
    requires i < |window| && !window[i].Obj?
    ensures KeptTurns(window) == Err(HistoryEntryNotObject)
  {
    if i < |window| - 1 {
      var init := window[..|window| - 1];
      assert init[i] == window[i];
      KeptTurnsPrefixFails(init, i);
    }
  }

  // ---------------------------------------------------------------------------
  // The tool loop

  const MaxSteps: nat := 6

  const FallbackReply: string := "Lo siento, tuve un problema procesando tu solicitud. ¿Podrías reformularla en una frase?"

  /** `msg.content or ""`. */
  function ContentOf(c: Completion): string
  {
    if c.content.Some? then c.content.value else ""
  }

  /** The loop over the tool calls of one completion: one tool message per call, in
      call order; the first exception ends the round. */
  function ApplyCalls(env: Env, messages: seq<Message>, calls: seq<ToolCall>): Result<seq<Message>, Failure>
    requires EnvValid(env)
  {
    if calls == [] then Ok(messages)
    else
      var last := calls[|calls| - 1];
      match ApplyCalls(env, messages, calls[..|calls| - 1])
      case Err(e) => Err(e)
      case Ok(ms) =>
        match Dispatch(env, last)
        case Err(e) => Err(e)
        case Ok(out) => Ok(ms + [ToolReply(last.id, out)])
  }

  /** The tool messages of a round in which every call succeeds. */
  function Replies(env: Env, calls: seq<ToolCall>): seq<Message>
    requires EnvValid(env)
    requires forall i :: 0 <= i < |calls| ==> Dispatch(env, calls[i]).Ok?
  {
    seq(|calls|, i requires 0 <= i < |calls| => ToolReply(calls[i].id, Dispatch(env, calls[i]).value))
  }

  /** A round succeeds exactly when every call succeeds, and then it appends one
      tool message per call, in call order, carrying the call's id. */
  lemma {:induction false} ApplyCallsSpec(env: Env, messages: seq<Message>, calls: seq<ToolCall>)
    requires EnvValid(env)
    ensures ApplyCalls(env, messages, calls).Ok? <==> forall i :: 0 <= i < |calls| ==> Dispatch(env, calls[i]).Ok?
    ensures ApplyCalls(env, messages, calls).Ok? ==>
      (forall i :: 0 <= i < |calls| ==> Dispatch(env, calls[i]).Ok?) &&
      ApplyCalls(env, messages, calls).value == messages + Replies(env, calls)
  {
    if calls != [] {
      var init := calls[..|calls| - 1];
      ApplyCallsSpec(env, messages, init);
      assert forall i :: 0 <= i < |init| ==> init[i] == calls[i];
      if ApplyCalls(env, messages, calls).Ok? {
        assert Replies(env, calls) == Replies(env, init) + [ToolReply(calls[|calls| - 1].id, Dispatch(env, calls[|calls| - 1]).value)];
      }
    }
  }

  /** The first failing call decides the round's exception. */
  lemma {:induction false} ApplyCallsFails(env: Env, messages: seq<Message>, calls: seq<ToolCall>, k: nat)
    requires EnvValid(env) && k < |calls|
    requires ApplyCalls(env, messages, calls[..k]).Ok? && Dispatch(env, calls[k]).Err?
    ensures ApplyCalls(env, messages, calls) == Err(Dispatch(env, calls[k]).error)
  {
    if k < |calls| - 1 {
      var init := calls[..|calls| - 1];
      assert init[..k] == calls[..k] && init[k] == calls[k];
      ApplyCallsFails(env, messages, init, k);
    } else {
      assert calls[..|calls| - 1] == calls[..k];
    }
  }

  /** The loop over the tool calls of one completion. */
  method RunToolCalls(env: Env, start: seq<Message>, calls: seq<ToolCall>) returns (res: Result<seq<Message>, Failure>)
    requires EnvValid(env)
    ensures res == ApplyCalls(env, start, calls)
  {
    var messages := start;
    for k := 0 to |calls|
      invariant ApplyCalls(env, start, calls[..k]) == Ok(messages)
    {
      var call := calls[k];
      var out := DispatchCall(env, call);
      if out.Err? {
        ApplyCallsFails(env, start, calls, k);
        return Err(out.error);
      }
      assert calls[..k + 1][..k] == calls[..k];
      messages := messages + [ToolReply(call.id, out.value)];
    }
    assert calls[..|calls|] == calls;
    res := Ok(messages);
  }

  /** A run of the loop: its reply (or exception) and the transcripts sent to the
      model, one per completion requested. */
  datatype Run = Run(reply: Result<string, Failure>, prompts: seq<seq<Message>>)

  /** The tool loop with `steps` completions left. */
  function Agent(env: Env, messages: seq<Message>, steps: nat): Run
    requires EnvValid(env)
    decreases steps
  {
    if steps == 0 then Run(Ok(FallbackReply), [])
    else
      match env.complete(messages)
      case Err(e) => Run(Err(CompletionFailed(e)), [messages])
      case Ok(c) =>
        if c.toolCalls == [] then Run(Ok(Trim(ContentOf(c))), [messages])
        else
          match ApplyCalls(env, messages + [AssistantCalls(ContentOf(c), c.toolCalls)], c.toolCalls)
          case Err(e) => Run(Err(e), [messages])
          case Ok(next) =>
            var rest := Agent(env, next, steps - 1);
            Run(rest.reply, [messages] + rest.prompts)
  }

  /** run_agent as a function of the history and the user message. */
  function RunAgentSpec(env: Env, history: seq<Json>, userMessage: string): Run
    requires EnvValid(env)
  {
    match InitialTranscript(env, history, userMessage)
    case Err(e) => Run(Err(e), [])
    case Ok(t) => Agent(env, t, MaxSteps)
  }

  /** run_agent. */
  method RunAgent(env: Env, history: seq<Json>, userMessage: string) returns (reply: Result<string, Failure>)
    requires EnvValid(env)
    ensures reply == RunAgentSpec(env, history, userMessage).reply
  {
    var initial := BuildTranscript(env, history, userMessage);
    if initial.Err? {
      return Err(initial.error);
    }
    var messages := initial.value;
    for step := 0 to MaxSteps
      invariant Agent(env, messages, MaxSteps - step).reply == RunAgentSpec(env, history, userMessage).reply
    {
      var resp := env.complete(messages);
      if resp.Err? {
        return Err(CompletionFailed(resp.error));
      }
      var msg := resp.value;
      if msg.toolCalls == [] {
        return Ok(Trim(ContentOf(msg)));
      }
      var next := RunToolCalls(env, messages + [AssistantCalls(ContentOf(msg), msg.toolCalls)], msg.toolCalls);
      if next.Err? {
        return Err(next.error);
      }
      messages := next.value;
    }
    return Ok(FallbackReply);
  }

  // ---------------------------------------------------------------------------
  // Properties of the loop

  /** `next` is the transcript after a tool round on `prompt`: the model asked for
      tools, every call succeeded, and the round appended the assistant message and
      one tool message per call. */
  ghost predicate ToolRound(env: Env, prompt: seq<Message>, next: seq<Message>)
    requires EnvValid(env)
  {
    var c := env.complete(prompt);
    c.Ok? && c.value.toolCalls != [] &&
    (forall i :: 0 <= i < |c.value.toolCalls| ==> Dispatch(env, c.value.toolCalls[i]).Ok?) &&
    next == prompt + [AssistantCalls(ContentOf(c.value), c.value.toolCalls)] + Replies(env, c.value.toolCalls)
  }

  /** At most `steps` completions are requested (6 per run_agent call), the first one
      with the initial transcript; every later transcript is the one before it after a
      tool round. */
  lemma {:induction false} AgentPrompts(env: Env, messages: seq<Message>, steps: nat)
    requires EnvValid(env)
    decreases steps
    ensures var run := Agent(env, messages, steps);
      |run.prompts| <= steps &&
      (steps >= 1 ==> |run.prompts| >= 1 && run.prompts[0] == messages) &&
      (forall k :: 0 <= k < |run.prompts| - 1 ==> ToolRound(env, run.prompts[k], run.prompts[k + 1]))
  {
    if steps > 0 {
      var c := env.complete(messages);
      if c.Ok? && c.value.toolCalls != [] {
        var start := messages + [AssistantCalls(ContentOf(c.value), c.value.toolCalls)];
        ApplyCallsSpec(env, start, c.value.toolCalls);
        if ApplyCalls(env, start, c.value.toolCalls).Ok? {
          var next := ApplyCalls(env, start, c.value.toolCalls).value;
          AgentPrompts(env, next, steps - 1);
          var run := Agent(env, messages, steps);
          var rest := Agent(env, next, steps - 1);
          assert run.prompts == [messages] + rest.prompts;
          assert ToolRound(env, messages, next);
          forall k | 0 <= k < |run.prompts| - 1
            ensures ToolRound(env, run.prompts[k], run.prompts[k + 1])
          {
            if k > 0 {
              assert run.prompts[k] == rest.prompts[k - 1] && run.prompts[k + 1] == rest.prompts[k];
            } else {
              assert run.prompts[1] == rest.prompts[0] == next;
            }
          }
        }
      }
    }
  }

  /** The first completion without tool calls ends the run with its content, stripped. */
  lemma AgentStops(env: Env, messages: seq<Message>, steps: nat, c: Completion)
    requires EnvValid(env) && steps >= 1
    requires env.complete(messages) == Ok(c) && c.toolCalls == []
    ensures Agent(env, messages, steps) == Run(Ok(Trim(ContentOf(c))), [messages])
  {
  }

  /** A model that never stops calling tools, with tools that never raise, gets the
      fixed apology after exactly `steps` completions, and no exception. */
  ghost predicate AlwaysCallsTools(env: Env)
    requires EnvValid(env)
  {
    forall m :: env.complete(m).Ok? && env.complete(m).value.toolCalls != [] &&
      forall i :: 0 <= i < |env.complete(m).value.toolCalls| ==> Dispatch(env, env.complete(m).value.toolCalls[i]).Ok?
  }

  lemma {:induction false} AgentExhausted(env: Env, messages: seq<Message>, steps: nat)
    requires EnvValid(env) && AlwaysCallsTools(env)
    ensures Agent(env, messages, steps).reply == Ok(FallbackReply)
    ensures |Agent(env, messages, steps).prompts| == steps
    decreases steps
  {
    if steps > 0 {
      var c := env.complete(messages).value;
      var start := messages + [AssistantCalls(ContentOf(c), c.toolCalls)];
      ApplyCallsSpec(env, start, c.toolCalls);
      AgentExhausted(env, ApplyCalls(env, start, c.toolCalls).value, steps - 1);
    }
  }

  /** A tool exception is run_agent's exception: the loop does not catch it. */
  lemma AgentToolFailure(env: Env, messages: seq<Message>, steps: nat, c: Completion, k: nat)
    requires EnvValid(env) && steps >= 1
    requires env.complete(messages) == Ok(c) && k < |c.toolCalls|
    requires forall i :: 0 <= i < k ==> Dispatch(env, c.toolCalls[i]).Ok?
    requires Dispatch(env, c.toolCalls[k]).Err?
    ensures Agent(env, messages, steps).reply == Err(Dispatch(env, c.toolCalls[k]).error)
  {
    var start := messages + [AssistantCalls(ContentOf(c), c.toolCalls)];
    var calls := c.toolCalls;
    ApplyCallsSpec(env, start, calls[..k]);
    assert forall i :: 0 <= i < k ==> calls[..k][i] == calls[i];
    ApplyCallsFails(env, start, calls, k);
  }
}
