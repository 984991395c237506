/** The request normalisation of the TGI adapter (`TGILLM.align_input` and the template and
    system-message logic of `TGILLM.invoke`). The LangChain `PromptTemplate` and the RAG
    prompt builder are foreign code, taken as uninterpreted functions (`Templating`); the
    OpenAI client calls are represented by the request they would send (`Upstream`). */
module LlmRequest {
  import opened Outcomes
  import opened Strings

  /** The content of a chat message: text, or the `PromptTemplate` object that line 200
      inserts when the template's variables do not fit. */
  datatype Content = Text(text: string) | TemplateObject(template: string)

  datatype Message = Message(role: string, content: Content)

  /** `ChatCompletionRequest.messages`: a bare prompt string or a list of chat messages. */
  datatype Messages = Prompt(prompt: string) | Chat(messages: seq<Message>)

  /** `ChatCompletionRequest`, with the fields the adapter reads or writes; the remaining
      OpenAI parameters (`n`, `seed`, `stop`, `logit_bias`, `best_of`, ...) are carried
      unexamined in `otherParams`. */
  datatype ChatCompletionRequest = ChatCompletionRequest(
    messages: Messages,
    documents: Option<seq<string>>,
    chatTemplate: Option<string>,
    model: Option<string>,
    maxTokens: Option<int>,
    topP: Option<real>,
    temperature: Option<real>,
    frequencyPenalty: Option<real>,
    stream: bool,
    otherParams: map<string, string>)

  /** `LLMParamsDoc`, the output of the reranking stage. */
  datatype LlmParamsDoc = LlmParamsDoc(
    query: string,
    documents: Option<seq<string>>,
    chatTemplate: Option<string>,
    model: Option<string>,
    maxTokens: int,
    topP: real,
    temperature: real,
    frequencyPenalty: real,
    streaming: bool)

  datatype TextDoc = TextDoc(text: string)

  /** `SearchedDoc`, the output of the retriever. */
  datatype SearchedDoc = SearchedDoc(initialQuery: string, retrievedDocs: seq<TextDoc>)

  /** The three request shapes `invoke` accepts. */
  datatype LlmInput =
    | Retrieved(searched: SearchedDoc)
    | Reranked(params: LlmParamsDoc)
    | Request(request: ChatCompletionRequest)

  /** The foreign code the adapter calls:
      - `variables(t)`: `PromptTemplate.from_template(t).input_variables`;
      - `format(t, args)`: `PromptTemplate.from_template(t).format(**args)`;
      - `rag(query, docs, model)`: `ChatTemplate.generate_rag_prompt`;
      - `formatFailure(s, x)`: the exception `s.format(context=x)` raises, if any: a
        KeyError for a field other than `context`, a ValueError for a stray brace, an
        IndexError, TypeError or AttributeError for an index or attribute of `context` that
        `x` cannot give. */
  datatype Templating = Templating(
    variables: string -> seq<string>,
    format: (string, map<string, string>) -> string,
    rag: (string, seq<string>, Option<string>) -> string,
    formatFailure: (string, string) -> Option<LlmError>)

  /** A parsed `PromptTemplate`: its text and its `input_variables`. */
  datatype Template = Template(text: string, variables: seq<string>)

  /** The exceptions that escape `invoke`, by Python class. */
  datatype LlmError =
    | TypeError(message: string)
    | IndexError(message: string)
    | KeyError(message: string)
    | ValueError(message: string)
    | AttributeError(message: string)

  /** What `invoke` hands to the OpenAI client: a chat-completions call with the request, or
      a completions call with the prompt and the request's parameters. */
  datatype Upstream =
    | ChatCompletions(request: ChatCompletionRequest)
    | Completions(prompt: string, request: ChatCompletionRequest)
  {
    /** `if input.stream:` after `input` was rebound to the aligned request. */
    predicate Streams() {
      request.stream
    }
  }

  const JoinError := TypeError("can only join an iterable")

  /** `"\n".join(documents)`, which raises TypeError when documents is None. */
  function JoinDocuments(documents: Option<seq<string>>): (r: Result<string, LlmError>)
    ensures r.Failure? <==> documents.None?
  {
    match documents
    case None => Failure(JoinError)
    case Some(docs) => Success(Join("\n", docs))
  }

  /** Python truthiness of an optional list: present and non-empty. */
  predicate NonEmpty(documents: Option<seq<string>>) {
    documents.Some? && |documents.value| > 0
  }

  /** `sorted(input_variables) == ["context", "question"]`: the two lists whose sort is
      `["context", "question"]`. */
  predicate SortsToContextQuestion(variables: seq<string>) {
    variables == ["context", "question"] || variables == ["question", "context"]
  }

  /** `sorted(v) == ["context", "question"]` holds exactly when `v` is a permutation of it. */
  lemma SortsToContextQuestionIsPermutation(variables: seq<string>)
    ensures SortsToContextQuestion(variables) <==> multiset(variables) == multiset{"context", "question"}
  {
    if multiset(variables) == multiset{"context", "question"} {
      assert |variables| == 2;
      assert variables[0] in multiset(variables) && variables[1] in multiset(variables);
      assert "context" in variables && "question" in variables;
    }
  }

  /** `chat_template` of the inputs that have one. */
  function ChatTemplateOf(input: LlmInput): Option<string> {
    match input
    case Retrieved(_) => None
    case Reranked(p) => p.chatTemplate
    case Request(r) => r.chatTemplate
  }

  /** Lines 174-178: the template is parsed only for inputs that are not a SearchedDoc and
      carry a non-empty `chat_template`. */
  function ParseTemplate(input: LlmInput, tm: Templating): (t: Option<Template>)
    ensures t.Some? <==> !input.Retrieved? && ChatTemplateOf(input).Some? && ChatTemplateOf(input).value != ""
    ensures t.Some? ==> t.value.text == ChatTemplateOf(input).value && t.value.variables == tm.variables(t.value.text)
  {
    if input.Retrieved? then None
    else
      match ChatTemplateOf(input)
      case Some(text) => if text != "" then Some(Template(text, tm.variables(text))) else None
      case None => None
  }

  /** The prompt resolution `align_input` repeats for an LLMParamsDoc (lines 118-131) and
      for a string-message request (lines 149-162). */
  function ResolvePrompt(query: string, documents: Option<seq<string>>, model: Option<string>,
                         template: Option<Template>, tm: Templating): (r: Result<string, LlmError>)
    // the only failure is joining absent documents for a context-and-question template
    ensures r.Failure? <==> template.Some? && SortsToContextQuestion(template.value.variables) && documents.None?
    ensures r.Failure? ==> r.error == JoinError
    // a template with other variables is not used, and the documents are then ignored too
    ensures template.Some? && !SortsToContextQuestion(template.value.variables) && template.value.variables != ["question"]
            ==> r == Success(query)
    // a context-and-question template gets the query and the newline-joined documents
    ensures template.Some? && SortsToContextQuestion(template.value.variables) && documents.Some?
            ==> r == Success(tm.format(template.value.text, map["question" := query, "context" := Join("\n", documents.value)]))
    // a question-only template gets the query alone, and the documents are ignored
    ensures template.Some? && template.value.variables == ["question"]
            ==> r == Success(tm.format(template.value.text, map["question" := query]))
    // without a template the RAG prompt is built only when there are documents
    ensures template.None? && NonEmpty(documents) ==> r == Success(tm.rag(query, documents.value, model))
    ensures template.None? && !NonEmpty(documents) ==> r == Success(query)
  {
    match template
    case Some(t) =>
      if SortsToContextQuestion(t.variables) then
        (match JoinDocuments(documents)
         case Failure(e) => Failure(e)
         case Success(context) => Success(tm.format(t.text, map["question" := query, "context" := context])))
      else if t.variables == ["question"] then Success(tm.format(t.text, map["question" := query]))
      else Success(query)
    case None =>
      if NonEmpty(documents) then Success(tm.rag(query, documents.value, model)) else Success(query)
  }

  /** `documents` of the inputs that have them. */
  function DocumentsOf(input: LlmInput): Option<seq<string>> {
    match input
    case Retrieved(d) => Some(seq(|d.retrievedDocs|, i requires 0 <= i < |d.retrievedDocs| => d.retrievedDocs[i].text))
    case Reranked(p) => p.documents
    case Request(r) => r.documents
  }

  /** Whether the request sent upstream streams (line 248), read from the input that
      determines it. */
  predicate StreamRequested(input: LlmInput, defaults: ChatCompletionRequest) {
    match input
    case Retrieved(_) => defaults.stream
    case Reranked(p) => p.streaming
    case Request(r) => r.stream
  }

  /** `align_input`: the prompt and the request to send to the completions endpoint. It is
      only reached with a request whose messages are a string. */
  function AlignInput(input: LlmInput, template: Option<Template>, tm: Templating,
                      defaults: ChatCompletionRequest, modelName: Option<string>): (r: Result<(string, ChatCompletionRequest), LlmError>)
    requires input.Request? ==> input.request.messages.Prompt?
    ensures r.Failure? <==> !input.Retrieved? && template.Some? && SortsToContextQuestion(template.value.variables)
                             && DocumentsOf(input).None?
    // a retriever result has no template and always aligns; with no documents the query is the prompt
    ensures input.Retrieved? ==> r.Success? && (|input.searched.retrievedDocs| == 0 ==> r.value.0 == input.searched.initialQuery)
    // a direct request is passed on as it is, its messages still the caller's string
    ensures r.Success? && input.Request? ==> r.value.1 == input.request
    // the other two shapes become a default request whose messages are the prompt
    ensures r.Success? && !input.Request? ==> r.value.1.messages == Prompt(r.value.0)
    ensures r.Success? ==> (r.value.1.stream <==> StreamRequested(input, defaults))
    // a rerank result's sampling parameters are carried over; everything else keeps its default
    ensures r.Success? && input.Reranked? ==>
              var p, q := input.params, r.value.1;
              q.maxTokens == Some(p.maxTokens) && q.topP == Some(p.topP) && q.temperature == Some(p.temperature)
              && q.frequencyPenalty == Some(p.frequencyPenalty) && q.documents == defaults.documents
              && q.chatTemplate == defaults.chatTemplate && q.model == defaults.model && q.otherParams == defaults.otherParams
  {
    match input
    case Retrieved(d) =>
      var texts := seq(|d.retrievedDocs|, i requires 0 <= i < |d.retrievedDocs| => d.retrievedDocs[i].text);
      var prompt := if |d.retrievedDocs| > 0 then tm.rag(d.initialQuery, texts, modelName) else d.initialQuery;
      Success((prompt, defaults.(messages := Prompt(prompt))))
    case Reranked(p) =>
      (match ResolvePrompt(p.query, p.documents, p.model, template, tm)
       case Failure(e) => Failure(e)
       case Success(prompt) =>
         Success((prompt, defaults.(messages := Prompt(prompt), maxTokens := Some(p.maxTokens), topP := Some(p.topP),
                                    stream := p.streaming, frequencyPenalty := Some(p.frequencyPenalty),
                                    temperature := Some(p.temperature)))))
    case Request(r) =>
      match ResolvePrompt(r.messages.prompt, r.documents, r.model, template, tm)
      case Failure(e) => Failure(e)
      case Success(prompt) => Success((prompt, r))
  }

  /** `"{context}" in content`; a template object contains no such string. */
  predicate HasContextField(c: Content) {
    c.Text? && Contains(c.text, "{context}")
  }

  /** The `context` value lines 186-189 format a leading system message with: the empty
      string when the documents are None or empty, else the newline-joined documents. */
  function SystemContext(documents: Option<seq<string>>): string {
    if NonEmpty(documents) then Join("\n", documents.value) else ""
  }

  /** The system message lines 192-200 insert: the template formatted with the joined
      documents when its variables are exactly `["context"]`, else the template object. */
  function SystemContent(t: Template, documents: Option<seq<string>>, tm: Templating): Result<Content, LlmError> {
    if t.variables == ["context"] then
      (match JoinDocuments(documents)
       case Failure(e) => Failure(e)
       case Success(context) => Success(Text(tm.format(t.text, map["context" := context]))))
    else Success(TemplateObject(t.text))
  }

  /** Lines 180-200 for a request with chat messages. A leading system message is kept as it
      is: the `.format` result on lines 187 and 189 is discarded, so the only effect is the
      exception `format` may raise. Otherwise a parsed template becomes a new system message. */
  function NormalizeChat(r: ChatCompletionRequest, template: Option<Template>, tm: Templating): (n: Result<ChatCompletionRequest, LlmError>)
    requires r.messages.Chat?
    ensures n.Failure? <==>
              var msgs := r.messages.messages;
              |msgs| == 0
              || (msgs[0].role == "system" && HasContextField(msgs[0].content)
                  && tm.formatFailure(msgs[0].content.text, SystemContext(r.documents)).Some?)
              || (msgs[0].role != "system" && template.Some? && template.value.variables == ["context"] && r.documents.None?)
    // the failures by cause: `messages[0]` of an empty chat, the exception `format` raises on a
    // leading system message, or the `join` of absent documents for a `context` template
    ensures |r.messages.messages| == 0 ==> n == Failure(IndexError("list index out of range"))
    ensures n.Failure? && |r.messages.messages| > 0 ==>
              var first := r.messages.messages[0];
              if first.role == "system" then n.error == tm.formatFailure(first.content.text, SystemContext(r.documents)).value
              else n.error == JoinError
    // only the message list may change
    ensures n.Success? ==> n.value == r.(messages := n.value.messages)
    // the caller's messages are kept, in order, behind at most one new message
    ensures n.Success? ==>
              var msgs, out := r.messages.messages, n.value.messages;
              out.Chat? && |msgs| <= |out.messages| <= |msgs| + 1 && out.messages[|out.messages| - |msgs|..] == msgs
    // a message is added exactly when the first one is not a system message and a template exists
    ensures n.Success? ==>
              (|n.value.messages.messages| == |r.messages.messages| + 1 <==> r.messages.messages[0].role != "system" && template.Some?)
    ensures n.Success? && template.Some? ==> n.value.messages.messages[0].role == "system"
    // the added message is the formatted template iff its variables are exactly `context`
    ensures n.Success? && |n.value.messages.messages| == |r.messages.messages| + 1 ==>
              var c := n.value.messages.messages[0].content;
              (c.Text? <==> template.value.variables == ["context"]) && (c.TemplateObject? ==> c.template == template.value.text)
    // the formatted template is filled with the newline-joined documents
    ensures n.Success? && |n.value.messages.messages| == |r.messages.messages| + 1 && template.value.variables == ["context"] ==>
              n.value.messages.messages[0].content == Text(tm.format(template.value.text, map["context" := Join("\n", r.documents.value)]))
  {
    var msgs := r.messages.messages;
    if |msgs| == 0 then Failure(IndexError("list index out of range"))
    else if msgs[0].role == "system" then
      if HasContextField(msgs[0].content) && tm.formatFailure(msgs[0].content.text, SystemContext(r.documents)).Some? then
        Failure(tm.formatFailure(msgs[0].content.text, SystemContext(r.documents)).value)
      else Success(r)
    else
      match template
      case None => Success(r)
      case Some(t) =>
        match SystemContent(t, r.documents, tm)
        case Failure(e) => Failure(e)
        case Success(content) => Success(r.(messages := Chat([Message("system", content)] + msgs)))
  }

  /** `TGILLM.invoke` up to the client call: chat messages go to chat completions after
      normalisation, everything else is aligned and goes to completions. */
  function InvokeLlm(input: LlmInput, tm: Templating, defaults: ChatCompletionRequest, modelName: Option<string>): (r: Result<Upstream, LlmError>)
    // chat messages go to chat completions, every other input to completions
    ensures r.Success? ==> (r.value.ChatCompletions? <==> input.Request? && input.request.messages.Chat?)
    ensures r.Success? ==> (r.value.Streams() <==> StreamRequested(input, defaults))
    ensures input.Retrieved? ==> r.Success?
    // an empty chat fails on `messages[0]`
    ensures input.Request? && input.request.messages == Chat([]) ==> r == Failure(IndexError("list index out of range"))
    // apart from that and a leading system message that does not format, the only failure is
    // the `join` of absent documents
    ensures r.Failure? && !(input.Request? && input.request.messages.Chat?
                            && |input.request.messages.messages| > 0 && input.request.messages.messages[0].role == "system")
            ==> (r.error == JoinError && DocumentsOf(input).None?)
                || (input.Request? && input.request.messages == Chat([]))
  {
    var template := ParseTemplate(input, tm);
    if input.Request? && input.request.messages.Chat? then
      match NormalizeChat(input.request, template, tm)
      case Failure(e) => Failure(e)
      case Success(r) => Success(ChatCompletions(r))
    else
      match AlignInput(input, template, tm, defaults, modelName)
      case Failure(e) => Failure(e)
      case Success(aligned) => Success(Completions(aligned.0, aligned.1))
  }

  /** The query of the inputs sent to completions. */
  function QueryOf(input: LlmInput): string
    requires input.Request? ==> input.request.messages.Prompt?
  {
    match input
    case Retrieved(d) => d.initialQuery
    case Reranked(p) => p.query
    case Request(r) => r.messages.prompt
  }

  /** The ways `invoke` can raise before calling the client, all at once: an empty chat, a
      system message whose `{context}` field does not format, or a template that needs the
      joined documents when there are none. */
  lemma InvokeFailsExactly(input: LlmInput, tm: Templating, defaults: ChatCompletionRequest, modelName: Option<string>)
    ensures InvokeLlm(input, tm, defaults, modelName).Failure? <==>
              var t := ParseTemplate(input, tm);
              if input.Request? && input.request.messages.Chat? then
                var msgs := input.request.messages.messages;
                |msgs| == 0
                || (msgs[0].role == "system" && HasContextField(msgs[0].content)
                    && tm.formatFailure(msgs[0].content.text, SystemContext(input.request.documents)).Some?)
                || (msgs[0].role != "system" && t.Some? && t.value.variables == ["context"] && input.request.documents.None?)
              else
                t.Some? && SortsToContextQuestion(t.value.variables) && DocumentsOf(input).None?
  {
  }

  /** A chat that already starts with a system message is forwarded unchanged, template or not. */
  lemma SystemMessageKept(input: LlmInput, tm: Templating, defaults: ChatCompletionRequest, modelName: Option<string>)
    requires input.Request? && input.request.messages.Chat?
    requires |input.request.messages.messages| > 0 && input.request.messages.messages[0].role == "system"
    ensures var r := InvokeLlm(input, tm, defaults, modelName);
            r.Success? ==> r.value == ChatCompletions(input.request)
  {
  }

  /** The system prompt is injected at most once: feeding the forwarded chat request back in
      forwards it unchanged, unless the injected text itself has a `{context}` field that does
      not format. */
  lemma SystemPromptInjectedOnce(input: LlmInput, tm: Templating, defaults: ChatCompletionRequest, modelName: Option<string>)
    requires input.Request? && input.request.messages.Chat?
    requires InvokeLlm(input, tm, defaults, modelName).Success?
    ensures var sent := InvokeLlm(input, tm, defaults, modelName).value;
            var again := InvokeLlm(Request(sent.request), tm, defaults, modelName);
            again == Success(sent)
            || (&& sent.request.messages.Chat? && |sent.request.messages.messages| > 0
                && var first := sent.request.messages.messages[0];
                && HasContextField(first.content)
                && tm.formatFailure(first.content.text, SystemContext(sent.request.documents)).Some?
                && again == Failure(tm.formatFailure(first.content.text, SystemContext(sent.request.documents)).value))
  {
    var t := ParseTemplate(input, tm);
    var n := NormalizeChat(input.request, t, tm);
    assert n.Success?;
    var sent := n.value;
    // the template is parsed again from the same chat_template
    assert ParseTemplate(Request(sent), tm) == t;
    var msgs := input.request.messages.messages;
    if |sent.messages.messages| == |msgs| {
      assert sent.messages.messages == msgs;
      assert sent == input.request;
    } else {
      assert sent.messages.messages[0].role == "system";
    }
  }

  /** A template whose variables are neither `question` nor `context` and `question` is not
      used at all: the query goes out as the prompt, and any documents are ignored rather
      than turned into a RAG prompt. */
  lemma MismatchedTemplateSendsQuery(input: LlmInput, tm: Templating, defaults: ChatCompletionRequest, modelName: Option<string>)
    requires input.Reranked? || (input.Request? && input.request.messages.Prompt?)
    requires ParseTemplate(input, tm).Some?
    requires var v := ParseTemplate(input, tm).value.variables; !SortsToContextQuestion(v) && v != ["question"]
    ensures var r := InvokeLlm(input, tm, defaults, modelName);
            r.Success? && r.value.Completions? && r.value.prompt == QueryOf(input)
  {
  }

  /** Without a template, non-empty documents are always turned into the RAG prompt, and with
      no documents the query goes out as it is. */
  lemma NoTemplateUsesRag(input: LlmInput, tm: Templating, defaults: ChatCompletionRequest, modelName: Option<string>)
    requires input.Reranked? || (input.Request? && input.request.messages.Prompt?)
    requires ParseTemplate(input, tm).None?
    ensures var r := InvokeLlm(input, tm, defaults, modelName);
            var docs := DocumentsOf(input);
            r.Success? && r.value.Completions?
            && r.value.prompt == (if NonEmpty(docs) then tm.rag(QueryOf(input), docs.value, if input.Reranked? then input.params.model else input.request.model)
                                  else QueryOf(input))
  {
  }

  /** A retriever result is never templated: its prompt is the RAG prompt over the documents'
      texts built for the configured model, or the bare query when nothing was retrieved. */
  lemma RetrievedPrompt(d: SearchedDoc, tm: Templating, defaults: ChatCompletionRequest, modelName: Option<string>)
    ensures var r := InvokeLlm(Retrieved(d), tm, defaults, modelName);
            r.Success? && r.value.Completions?
            && r.value.request == defaults.(messages := Prompt(r.value.prompt))
            && r.value.prompt == (if |d.retrievedDocs| > 0 then tm.rag(d.initialQuery, DocumentsOf(Retrieved(d)).value, modelName)
                                  else d.initialQuery)
  {
  }

  /** The context-and-question template gets both fields, in either declared order. */
  lemma ContextQuestionTemplate(input: LlmInput, tm: Templating, defaults: ChatCompletionRequest, modelName: Option<string>)
    requires input.Reranked? || (input.Request? && input.request.messages.Prompt?)
    requires ParseTemplate(input, tm).Some? && SortsToContextQuestion(ParseTemplate(input, tm).value.variables)
    requires DocumentsOf(input).Some?
    ensures var r := InvokeLlm(input, tm, defaults, modelName);
            r.Success? && r.value.Completions?
            && r.value.prompt == tm.format(ParseTemplate(input, tm).value.text,
                                           map["question" := QueryOf(input), "context" := Join("\n", DocumentsOf(input).value)])
  {
  }

  /** A question-only template gets the query alone; the documents, whatever they are, are
      not used and no RAG prompt is built. */
  lemma QuestionTemplate(input: LlmInput, tm: Templating, defaults: ChatCompletionRequest, modelName: Option<string>)
    requires input.Reranked? || (input.Request? && input.request.messages.Prompt?)
    requires ParseTemplate(input, tm).Some? && ParseTemplate(input, tm).value.variables == ["question"]
    ensures var r := InvokeLlm(input, tm, defaults, modelName);
            r.Success? && r.value.Completions?
            && r.value.prompt == tm.format(ParseTemplate(input, tm).value.text, map["question" := QueryOf(input)])
  {
  }

  /** The exception `format` raises on a leading system message's `{context}` field escapes
      `invoke` as it is, whatever its class: a chat that is not empty can still fail with an
      IndexError (`{context[0]}` without documents) or a TypeError (`{context[a]}` with them). */
  lemma SystemFormatExceptionEscapes(input: LlmInput, tm: Templating, defaults: ChatCompletionRequest, modelName: Option<string>)
    requires input.Request? && input.request.messages.Chat? && |input.request.messages.messages| > 0
    requires var first := input.request.messages.messages[0];
             first.role == "system" && HasContextField(first.content)
             && tm.formatFailure(first.content.text, SystemContext(input.request.documents)).Some?
    ensures var first := input.request.messages.messages[0];
            InvokeLlm(input, tm, defaults, modelName)
              == Failure(tm.formatFailure(first.content.text, SystemContext(input.request.documents)).value)
  {
  }
}
