# Video reranking and TGI text generation, modelled in Dafny

This project models two microservice components of a GenAI service suite. Both are written in Python.

**The video reranker** (`comps/rerankings/src/integrations/videoqna.py`) takes the metadata of a
multimodal search. It holds one entry per hit, each naming a video and a timestamp. The reranker:
- counts how often each video occurs (`get_top_doc`);
- keeps the `top_n` most voted names;
- picks the first of them, and finds that video's first timestamp (`find_timestamp_from_video`);
- canonicalises its file name to `<base>.mp4` (`format_video_name`);
- answers with an `LVMVideoDoc` pointing into the file server.

A bad extension becomes an HTTP 400, and every other failure an HTTP 500 (`OpeaVideoReranking.invoke`).

**The TGI adapter** (`comps/llms/src/text-generation/integrations/tgi_llm.py`) does the following:
- It chooses the endpoint of the text-generation server (`get_llm_endpoint`).
- It normalises three request shapes into one OpenAI-style call:
  - a retriever result (`SearchedDoc`);
  - a reranker result (`LLMParamsDoc`);
  - a direct `ChatCompletionRequest`.
- Normalisation is done by `align_input` and the template and system-message logic of
  `TGILLM.invoke`.
- When streaming, it frames every upstream chunk as a server-sent event and closes with `[DONE]`
  (`stream_generator`).

Modules, one per concern:

| module | file | models |
|---|---|---|
| `Outcomes` | `outcomes.dfy` | `Option` and `Result` (an exception becomes a `Failure`) |
| `Seqs`, `Strings` | `seqs.dfy`, `strings.dfy` | list and `str` helpers: first index, Python slicing, `rstrip`, `join`, `in` |
| `VoteTally` | `vote_tally.dfy` | `get_top_doc`: the insertion-ordered hit dict, the stable sort by descending hits, the `[:top_n]` slice |
| `VideoName` | `video_name.dfy` | `format_video_name`: both regular expressions as string predicates, the `ValueError` |
| `VideoRerank` | `video_rerank.dfy` | `find_timestamp_from_video` and `invoke` with its 400/500 mapping |
| `LlmEndpoint` | `llm_endpoint.dfy` | `get_llm_endpoint` and the client's `base_url` |
| `LlmRequest` | `llm_request.dfy` | template parsing, `align_input`, the chat-message normalisation, the choice of upstream call |
| `EventStream` | `event_stream.dfy` | `stream_generator` framing |

Modelling choices:

- **The stable sort.** The sort at `videoqna.py:38` is Python's stable `sorted` keyed on `-hits`. The
  model implements it as a stable insertion sort that compares hits only. `VoteTally.RankedUnique`
  proves that a strict rank order leaves exactly one possible sequence, so any stable sort gives
  this result. The order is by count, then by first appearance.
- **`$` in the regular expressions.** Without `MULTILINE`, `$` matches at the end of the string and
  also just before one final newline. The model keeps that case (`VideoName.Anchored`). For
  `re.sub` it removes the leftmost match, and a trailing newline survives the substitution.
- **Foreign code in the TGI adapter.** LangChain's `PromptTemplate` (its `input_variables` and
  `format`) and `ChatTemplate.generate_rag_prompt` are uninterpreted functions of the
  `LlmRequest.Templating` record. Python's `str.format` on a system message appears only through
  the one thing it can do there, which is raise (`formatFailure`). Its outcome is the exception
  Python raises, by class (`KeyError`, `ValueError`, `IndexError`, `TypeError` or
  `AttributeError`), or none. It depends on the message text and on the `context` value it is
  given: the empty string when the documents are `None` or empty, otherwise the newline-joined
  documents (`LlmRequest.SystemContext`).

In three places the code does less than its names and log messages suggest; the model follows the code:

- **A template with the wrong variables.** At `tgi_llm.py:124-127` and `155-158` the query goes out
  unchanged. The documents are then ignored: there is no fall-back to the retrieval-augmented
  prompt, which is used only when no template was given (`LlmRequest.MismatchedTemplateSendsQuery`).
- **A leading system message with a `{context}` field.** The message is not changed.
  `tgi_llm.py:187` and `189` call `format` and discard its result. The only effect is the
  exception `format` may raise (`LlmRequest.SystemMessageKept`).
- **A template whose variables are not exactly `context`.** A chat without a system message gets
  the template object itself as a new system message (`tgi_llm.py:192,200`), not text. This is
  `LlmRequest.Content.TemplateObject`.

## Model

| member | source | states |
|---|---|---|
| `VoteTally.TallyCounts` | comps/rerankings/src/integrations/videoqna.py:27-36 | The hit dict holds each name of the input once, in order of first appearance, and scores each with its number of occurrences. |
| `VoteTally.SortByHits` | comps/rerankings/src/integrations/videoqna.py:38 | The sort is a permutation of the dict's keys. |
| `VoteTally.RankingSpec` | comps/rerankings/src/integrations/videoqna.py:38 | The sorted keys hold every name of the input exactly once. They rank strictly by descending count, and equal counts go in order of first appearance. |
| `VoteTally.RankedUnique` | comps/rerankings/src/integrations/videoqna.py:38 | Two duplicate-free sequences of the same names, both strictly ranked, are equal. So the insertion sort and Python's stable `sorted` agree. |
| `VoteTally.GetTopDoc` | comps/rerankings/src/integrations/videoqna.py:26-43 | `None` videos give `None`, and only then. Every name returned occurs in the input. |
| `VoteTally.TopDocsShape` | comps/rerankings/src/integrations/videoqna.py:39 | The result has no duplicates. Its length follows Python's slice `[:top_n]`: `min(top_n, #names)` for `top_n >= 0`, otherwise `max(0, #names + top_n)`. |
| `VoteTally.TopDocsOrdered` | comps/rerankings/src/integrations/videoqna.py:38-39 | Along the result counts never increase. Equal counts keep the input's order of first appearance. |
| `VoteTally.TopDocsAreBest` | comps/rerankings/src/integrations/videoqna.py:38-39 | Each kept name ranks ahead of every name left out. The first kept name has the highest count of all. |
| `VoteTally.WinnerIndependentOfCutoff` | comps/rerankings/src/integrations/videoqna.py:39 | Any two cutoffs that keep a name have the same first name. |
| `VideoRerank.VideoNames` | comps/rerankings/src/integrations/videoqna.py:90 | The names are the metadata entries' videos, position by position. |
| `VideoRerank.FindTimestamp` | comps/rerankings/src/integrations/videoqna.py:46-50 | `None` iff no entry names the video. Otherwise the result is the timestamp of the first entry that names it. |
| `VideoName.Extension` | comps/rerankings/src/integrations/videoqna.py:55-58 | An extension found is one the pattern `\.(\w+)$` matches with. `VideoName.ExtensionMatchesPattern` proves the converse. |
| `VideoName.ExtensionMatchesPattern` | comps/rerankings/src/integrations/videoqna.py:55-58 | The computed extension is `e` iff `\.(\w+)$` matches with group 1 equal to `e`. This includes the match before a final newline. |
| `VideoName.StripSuffix` | comps/rerankings/src/integrations/videoqna.py:64 | The substitution keeps a prefix of the text. `VideoName.StripIsLeftmostMatch` proves that what it removes is the leftmost full match. |
| `VideoName.StripIsLeftmostMatch` | comps/rerankings/src/integrations/videoqna.py:64 | The text removed is matched in full by `(_interval_\d+)?(\.mp4)?`. No earlier start position matches, so it is the leftmost match `re.sub` replaces. |
| `VideoName.FormatVideoName` | comps/rerankings/src/integrations/videoqna.py:53-69 | A formatted name ends in `.mp4`. A rejection carries the invalid-extension message. |
| `VideoName.FormatRejectsIff` | comps/rerankings/src/integrations/videoqna.py:55-61 | The name is rejected iff the extension pattern matches with a group other than `mp4`. |
| `VideoName.FormatRejectsExtension` | comps/rerankings/src/integrations/videoqna.py:60-61 | A name ending in `.<word>` with a word other than `mp4` gets the `ValueError` naming that word. |
| `VideoName.FormatRejectExample` | comps/rerankings/src/integrations/videoqna.py:61 | `clip.avi` is rejected with `Invalid file extension: .avi. Only '.mp4' is allowed.` |
| `VideoName.FormatStripsInterval` | comps/rerankings/src/integrations/videoqna.py:63-67 | `b_interval_<digits>.mp4` becomes `b.mp4`, whatever `b` is. |
| `VideoName.FormatIntervalExample` | comps/rerankings/src/integrations/videoqna.py:63-67 | `x_interval_0.mp4` becomes `x.mp4`. |
| `VideoName.FormatMp4` | comps/rerankings/src/integrations/videoqna.py:64-67 | `b.mp4` is kept when `b` ends in no interval tag. Otherwise the tag is removed and the name gets shorter. |
| `VideoName.FormatFixedPoint` | comps/rerankings/src/integrations/videoqna.py:53-69 | The names left unchanged are exactly those ending in `.mp4` with no interval tag before it. |
| `VideoName.FormatStripsOneTagOnly` | comps/rerankings/src/integrations/videoqna.py:64 | One call removes only the last tag. A second call removes the next one, so formatting is not idempotent. |
| `VideoRerank.Invoke` | comps/rerankings/src/integrations/videoqna.py:79-112 | A failure is a 400 carrying the invalid-extension message or the generic 500. An answer is an `.mp4` URL under the endpoint without its trailing slashes, with the query as prompt, the configured duration and 512 new tokens. The lemmas below pin down the winner and when each status happens. |
| `VideoRerank.FileServerEndpoint` | comps/rerankings/src/integrations/videoqna.py:19 | The endpoint is never empty. A non-empty setting is used. Otherwise the default `http://0.0.0.0:6005` is used. |
| `VideoRerank.WinnerIsMostVoted` | comps/rerankings/src/integrations/videoqna.py:90-94 | The video picked has the most hits in the metadata. It is the first to appear among those with as many hits. |
| `VideoRerank.InvokeDescribesWinner` | comps/rerankings/src/integrations/videoqna.py:94-104 | A successful answer has these fields: (1) the URL is the endpoint without trailing slashes, `/`, and the winner's formatted name; (2) the query is the prompt; (3) the start is the winner's first timestamp; (4) the duration is as configured; (5) `max_new_tokens` is 512. |
| `VideoRerank.InvokeNoCandidateIs500` | comps/rerankings/src/integrations/videoqna.py:91-110 | The answer is 500 with the generic detail iff one of these holds: `top_n` is 0, the metadata is empty, or a negative `top_n` slices every name away. |
| `VideoRerank.InvokeBadExtensionIs400` | comps/rerankings/src/integrations/videoqna.py:95-106 | The answer is 400 iff the winner has an extension other than `mp4`. The detail is then the `ValueError` message. |
| `VideoRerank.InvokeIndependentOfCutoff` | comps/rerankings/src/integrations/videoqna.py:91-95 | Two cutoffs that both keep a name give the same answer. |
| `VideoRerank.InvokeVotesExample` | comps/rerankings/src/integrations/videoqna.py:88-104 | For the votes `[x, y, x]` with `top_n = 1`, `x` wins at its first timestamp. |
| `Strings.RStrip` | comps/rerankings/src/integrations/videoqna.py:96 | `rstrip('/')` leaves a prefix with no trailing `/`, and removes only `/`. |
| `LlmEndpoint.GetLlmEndpointAsWritten` | comps/llms/src/text-generation/integrations/tgi_llm.py:40-47 | Without `MODEL_CONFIGS` the result is the default endpoint. With an entry for the model, it is the entry's `endpoint` (possibly `None`). |
| `LlmEndpoint.MissingModelRaisesAttributeError` | comps/llms/src/text-generation/integrations/tgi_llm.py:43-47 | As written, a configured service whose model has no entry fails with `AttributeError`, not `ConfigError`. |
| `LlmEndpoint.GetLlmEndpoint` | comps/llms/src/text-generation/integrations/tgi_llm.py:40-47 | It fails iff configs are set and the model has no entry, and the failure is the intended `ConfigError`. |
| `LlmEndpoint.EndpointCorrection` | comps/llms/src/text-generation/integrations/tgi_llm.py:40-47 | The corrected lookup agrees with the written one wherever that one succeeds. |
| `LlmEndpoint.TgiEndpointSetting` | comps/llms/src/text-generation/integrations/tgi_llm.py:26 | A set variable is used even when empty. Only an unset one gives `http://localhost:8080`. |
| `LlmEndpoint.UnconfiguredClientBaseUrl` | comps/llms/src/text-generation/integrations/tgi_llm.py:70-75 | Without model configurations the base URL is `TGI_LLM_ENDPOINT` (line 26) plus `/v1`. That is `http://localhost:8080/v1` when the variable is unset. An empty variable gives the bare path `/v1`. |
| `LlmEndpoint.ClientBaseUrl` | comps/llms/src/text-generation/integrations/tgi_llm.py:70-75 | The base URL is the chosen endpoint plus `/v1`. It fails exactly when configs are set but give no endpoint string for the model. |
| `LlmRequest.JoinDocuments` | comps/llms/src/text-generation/integrations/tgi_llm.py:121 | `"\n".join(documents)` fails exactly when documents is `None`. |
| `LlmRequest.SortsToContextQuestionIsPermutation` | comps/llms/src/text-generation/integrations/tgi_llm.py:120 | `sorted(v) == ["context", "question"]` holds exactly for the permutations of that list. |
| `LlmRequest.ParseTemplate` | comps/llms/src/text-generation/integrations/tgi_llm.py:174-178 | A template is parsed iff the input is not a `SearchedDoc` and carries a non-empty `chat_template`. Its variables come from the template parser. |
| `LlmRequest.ResolvePrompt` | comps/llms/src/text-generation/integrations/tgi_llm.py:118-131 | It fails only when a context-and-question template meets absent documents, with the `join` TypeError. The cases: (1) a context-and-question template is formatted with the query and the newline-joined documents; (2) a question-only template is formatted with the query alone; (3) a template with other variables leaves the bare query, whatever the documents; (4) with no template, non-empty documents give the RAG prompt, and otherwise the result is the query. |
| `LlmRequest.AlignInput` | comps/llms/src/text-generation/integrations/tgi_llm.py:96-164 | It fails iff a context-and-question template meets absent documents. A retriever result always aligns. A direct request is passed on unchanged. Other inputs become a default request carrying the prompt. The stream flag comes from the input. A reranker result's sampling parameters are copied, and everything else keeps its default. |
| `LlmRequest.NormalizeChat` | comps/llms/src/text-generation/integrations/tgi_llm.py:180-200 | It fails exactly on an empty chat, a leading system message whose `{context}` does not format with the context the documents give, or a `context` template with `None` documents. These fail with the `messages[0]` IndexError, with the exception `format` raises, and with the `join` TypeError, respectively. Only the message list changes, and the caller's messages stay in order. A system message is added iff the first is not one and a template exists. The added message is the template formatted with the newline-joined documents iff the variables are exactly `context`, else the template object. |
| `LlmRequest.InvokeLlm` | comps/llms/src/text-generation/integrations/tgi_llm.py:174-248 | Chat messages go to chat completions, and everything else to completions. The streamed flag is the one the input determines. A retriever result never fails. An empty chat fails with the `messages[0]` IndexError. Apart from that, and from a leading system message that does not format, the only failure is the `join` TypeError of absent documents. |
| `LlmRequest.InvokeFailsExactly` | comps/llms/src/text-generation/integrations/tgi_llm.py:174-226 | The complete list of the ways `invoke` raises before calling the client. |
| `LlmRequest.SystemMessageKept` | comps/llms/src/text-generation/integrations/tgi_llm.py:184-189 | A chat that starts with a system message is forwarded unchanged, template or not. |
| `LlmRequest.SystemPromptInjectedOnce` | comps/llms/src/text-generation/integrations/tgi_llm.py:184-200 | Feeding the forwarded chat back in forwards it unchanged, unless the injected text has a `{context}` that does not format. Then it fails with the exception `format` raises on it. |
| `LlmRequest.MismatchedTemplateSendsQuery` | comps/llms/src/text-generation/integrations/tgi_llm.py:115-164 | With a template whose variables fit neither case, the completions prompt is the query itself. |
| `LlmRequest.NoTemplateUsesRag` | comps/llms/src/text-generation/integrations/tgi_llm.py:128-162 | Without a template, non-empty documents give the RAG prompt for the request's model. Otherwise the prompt is the query. |
| `LlmRequest.RetrievedPrompt` | comps/llms/src/text-generation/integrations/tgi_llm.py:97-113 | A retriever result is never templated. The prompt is the RAG prompt over the documents' texts for the configured model, or the bare query when nothing was retrieved. The request is the default with that prompt. |
| `LlmRequest.SystemFormatExceptionEscapes` | comps/llms/src/text-generation/integrations/tgi_llm.py:184-189 | When `format` raises on a leading system message's `{context}` field, `invoke` fails with that exception, whatever its class. So a chat that is not empty can still fail with an `IndexError` or a `TypeError`. |
| `LlmRequest.QuestionTemplate` | comps/llms/src/text-generation/integrations/tgi_llm.py:122-123 | A question-only template goes to completions formatted with the query alone. The documents are not used. |
| `LlmRequest.ContextQuestionTemplate` | comps/llms/src/text-generation/integrations/tgi_llm.py:119-152 | A context-and-question template is formatted with the query and the newline-joined documents. |
| `EventStream.Forwarded` | comps/llms/src/text-generation/integrations/tgi_llm.py:255 | The forwarded chunks are exactly the upstream chunks that are not sentinels. |
| `EventStream.StreamGenerator` | comps/llms/src/text-generation/integrations/tgi_llm.py:250-257 | The output is one `data: <chunk>\n\n` frame per non-sentinel chunk in order, then `data: [DONE]\n\n`. |
| `EventStream.StreamRoundTrip` | comps/llms/src/text-generation/integrations/tgi_llm.py:256-257 | Reading the frames back gives every forwarded chunk in order, then `[DONE]` as the last event. |
| `EventStream.SentinelSuppressedExample` | comps/llms/src/text-generation/integrations/tgi_llm.py:255-256 | The chunks `a`, the `im_end` end token and `b` give the frames of `a` and `b`, then `[DONE]`. |
| `EventStream.SentinelFilterNeverFires` | comps/llms/src/text-generation/integrations/tgi_llm.py:254-255 | When every chunk is serialised as a JSON object, every chunk is forwarded. |
| `EventStream.EndTokenForwardedAsWritten` | comps/llms/src/text-generation/integrations/tgi_llm.py:254-256 | A chunk whose text is an end token still reaches the client. |
| `EventStream.StreamGeneratorByContent` | comps/llms/src/text-generation/integrations/tgi_llm.py:250-257 | The corrected generator frames the serialisation of each chunk whose text is not an end token, then `[DONE]`. |
| `EventStream.ByContentDropsEndTokens` | comps/llms/src/text-generation/integrations/tgi_llm.py:254-257 | With the corrected test, no frame before `[DONE]` comes from an end-token chunk, and every other chunk is framed. |

## Left out

- **Logging and the service framework.** `logging`, `logflag`, `CustomLogger`, the component
  registry and `check_health` have no effect on results.
- **Environment variables.** `CHUNK_DURATION` (`videoqna.py:16-17`) becomes the parameter
  `chunkDuration`. Its parsing with `isdigit` is not modelled, because it converts to floating
  point. `FILE_SERVER_ENDPOINT` (`videoqna.py:19`) is read through `VideoRerank.FileServerEndpoint`
  into the parameter `fileServerEndpoint`.
- **The TGI adapter's settings.** `LLM_MODEL_ID`, `MODEL_CONFIGS`, `TGI_LLM_ENDPOINT` and the
  configs map (`tgi_llm.py:24-38`) become `LlmEndpoint.EndpointConfig`. Its default endpoint is
  `TGI_LLM_ENDPOINT` read through `LlmEndpoint.TgiEndpointSetting`. `load_model_configs` and
  its `ConfigError` at import time are not modelled.
- **The access token.** `get_access_token` and the `Authorization` header (`tgi_llm.py:64-69`) are
  left out. The header is never passed to the client anyway.
- **The network.** The OpenAI client calls (`tgi_llm.py:202-246`) are represented by the request
  they would send (`LlmRequest.Upstream`). Their responses, errors and the `StreamingResponse`
  wrapper are out of scope.
- **Template libraries.** LangChain's `PromptTemplate`, `ChatTemplate.generate_rag_prompt` and
  Python's `str.format` are foreign code. They are uninterpreted (`LlmRequest.Templating`).
  Exceptions from `PromptTemplate.from_template` on malformed templates are not modelled.
- **Unicode.** `VideoName.IsWordChar` and `VideoName.IsDigit` take `\w` and `\d` as ASCII. Python
  also accepts Unicode letters and digits.
- **Untyped metadata.** Metadata entries are typed records (`VideoRerank.VideoMeta`). A missing
  `video` or `timestamp` key (a 500 in the source) cannot occur, and neither can a pydantic
  validation error of `LVMVideoDoc` (a 400).
- **Unmodelled request fields.** The many OpenAI parameters of `ChatCompletionRequest` that the
  adapter only passes through are kept as `otherParams`. Their pydantic defaults are the parameter
  `defaults`.
- **Message content.** Messages whose content is a list of parts (multimodal chat) are not
  modelled. Content is text or, after line 200, the template object.
- **Mutation.** The in-place `messages.insert` is modelled as a new request value.
- **Stream lifetime.** The stream's single-pass laziness and a failure of the upstream iteration
  are not modelled. The generator is taken over the finite list of chunks.
- `VideoRerank.InvokeVotesExample`: states the example with the winner's format result left
  symbolic, not for literal names. A fully literal instance is not proved.

## Findings

| source | as written | input that shows it | evidently intended | confidence | as-written member | corrected member |
|---|---|---|---|---|---|---|
| comps/llms/src/text-generation/integrations/tgi_llm.py:43-47 | `configs_map.get(MODEL_NAME)` is `None` for a model without an entry. `.get("endpoint")` on it raises `AttributeError`, which the `except ConfigError` handler does not catch. | `MODEL_CONFIGS` set, with `LLM_MODEL_ID` naming a model absent from it | raise `ConfigError("Input model <name> not present in model_configs")` | medium, not executed | `LlmEndpoint.GetLlmEndpointAsWritten` | `LlmEndpoint.GetLlmEndpoint` |
| comps/llms/src/text-generation/integrations/tgi_llm.py:254-255 | The end-token test compares `c.model_dump_json()`, the JSON object of the whole chunk, with the `im_end` and `endoftext` end tokens. A JSON object starts with `{`, so the test never fires. | an upstream chunk whose generated text is the `im_end` token: its serialisation, a JSON object holding that text, is forwarded | drop the chunks whose generated text is an end token | medium, not executed | `EventStream.StreamGenerator` | `EventStream.StreamGeneratorByContent` |

For the first row:
- `LlmEndpoint.MissingModelRaisesAttributeError` exhibits the `AttributeError`.
- `LlmEndpoint.EndpointCorrection` relates the two versions.
- `LlmEndpoint.ClientBaseUrl` builds on the corrected lookup.

For the second row:
- `EventStream.SentinelFilterNeverFires` and `EventStream.EndTokenForwardedAsWritten` exhibit the
  dead filter.
- `EventStream.ByContentDropsEndTokens` proves the intended behaviour of the corrected generator.
- The as-written generator stays in the model because it is what the service does.
