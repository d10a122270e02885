# AI Accountant chat: a Dafny model

This project models the core of a small chat assistant for accounting
questions. The assistant is a Streamlit page. It sends the user's question,
optionally with the text of an uploaded document, to one of three hosted
language-model services (Gemini, OpenAI, or Grok through xAI's
OpenAI-compatible endpoint). It shows the reply and can save each exchange to
a Supabase table.

The model has five modules:

- `Wrappers` (`wrappers.dfy`): `Option` and `Result`. `Raised(message)`
  stands for a Python exception carrying that message.
- `Py` (`py.dfy`): the Python string operations the core relies on.
  - `str.strip`, using Python's whitespace set.
  - `str.split` on one character.
  - `str.join`, `startswith`, `endswith`, `lower`, and `in` on strings.
  - Truthiness of an optional string, and `os.getenv` over a snapshot of the environment.
- `Db` (`db_connect.dfy`): class `DatabaseConnect`.
  - The remote `chat_history` table is a `seq<ChatRecord>` field.
  - What the network does is a parameter: `Probe` for the connection test, `InsertOutcome` for an insert.
- `Llm` (`llm_connect.dfy`): the provider client.
  - Provider selection, the `LLMConnect` constructor, and the `get_llm_client` factory.
  - The bullet formatter and file-text extraction.
  - `generate_response`, as method `LlmConnect.GenerateResponse`. It rewrites an `array<Message>` in place, the way the source rewrites the last dict of its list.
  - The hosted model is a function parameter, `Backend`, from the client and the request to an outcome.
- `App` (`app.dfy`): the page script, as class `Session` over `st.session_state`.
  - Each method covers part of one script run: creating the client and the welcome history once, then handling a question.
  - It also holds the refusal screen, which replaces replies saying "not related to accounting".

Behaviour of the code that is easy to misread:

- A file with an unrecognised extension gives the empty string as its content, not an error text (`UnsupportedFileIsEmpty`).
- A chat is saved only when the store is connected, not just when an e-mail is given.
- The page sends `generate_response` one fresh message that holds the framed prompt, not the history. So the "original query" that is saved is the framed prompt, accounting instructions included (`SavedQueryIsFramed`).
- `generate_response` never calls the bullet formatter. The reply is returned exactly as the back end gave it (`AnswerIsUnformatted`).
- The refusal screen is in `app.py`, not in the provider client.
- `get_llm_client` stores the Grok key from `GROK_API_KEY`, but the client is built with `XAI_API_KEY`, so the stored key is never used (`FactoryGrokKeyUnused`).
- `generate_response` has a branch that raises for an unknown provider. It cannot be reached, because the constructor already rejects unknown providers. `GenerateResponse` relies on `Valid()`, which says the provider is known. `BuildRequest` still models that branch.

## Model

| member | source | states |
|---|---|---|
| Py.Strip | utils/llm_connect.py:66 | `str.strip`: the result is the slice of the input with only whitespace before it and only whitespace after it, and it has no whitespace at either end; it is empty exactly when every character is whitespace, and it is the input when the input's ends are already non-whitespace |
| Py.StripIdempotent | utils/llm_connect.py:66-69 | stripping a stripped string changes nothing |
| Py.JoinSplit | utils/llm_connect.py:66-70 | joining the pieces of `split(sep)` with `sep` restores the string |
| Py.SplitJoin | utils/llm_connect.py:66-70 | splitting a join of separator-free pieces gives the pieces back |
| Llm.ParseProvider | utils/llm_connect.py:33-45 | a provider is chosen exactly when the lower-cased name is one of "gemini", "openai", "grok" |
| Llm.ProviderNameParses | utils/llm_connect.py:136-148 | each provider's own name selects it |
| Llm.ParseProviderIgnoresCase | utils/llm_connect.py:33-38 | selection depends only on the lower-cased name |
| Llm.KelvinSignSelectsGrok | utils/llm_connect.py:33-38 | "gro" followed by the KELVIN SIGN lower-cases to "grok" and selects Grok, in the constructor and in the factory |
| Llm.ClientUsesConfiguredKey | utils/llm_connect.py:33-37 | the key passed to `genai.configure` (Gemini) and to `OpenAI(...)` (OpenAI) is the key in the configuration |
| Llm.GrokClientIgnoresConfiguredKey | utils/llm_connect.py:38-43 | the Grok client is the same whatever key the configuration holds, and the `OpenAI(...)` constructor is passed `os.getenv("XAI_API_KEY")` |
| Llm.GetLlmConfig | utils/llm_connect.py:132-150 | the factory accepts exactly the three names, case-insensitively, and otherwise raises "Unsupported provider: <name>"; it stores the canonical lower-case name, the key from `GEMINI_API_KEY`, `OPENAI_API_KEY` or `GROK_API_KEY` for that provider, and the model "gpt-3.5-turbo" for OpenAI only |
| Llm.FactoryGrokKeyUnused | utils/llm_connect.py:132-152 | with `GROK_API_KEY` set and `XAI_API_KEY` unset, the factory's Grok configuration holds a key but the `OpenAI(...)` constructor for Grok is passed `None` |
| Llm.FactoryAgreesWithConstructor | utils/llm_connect.py:132-152 | the factory rejects a name exactly when the constructor would, and every configuration it builds passes the constructor |
| Llm.NonEmptyStripped | utils/llm_connect.py:69 | the kept sentence pieces are non-empty and already stripped |
| Llm.NonEmptyStrippedSingle | utils/llm_connect.py:69 | one fragment contributes its stripped text exactly when that text is non-empty |
| Llm.NonEmptyStrippedAppend | utils/llm_connect.py:69 | the pieces kept from two runs of fragments are those kept from each, in order, so every fragment with visible text contributes at its own place |
| Llm.SentencesClean | utils/llm_connect.py:69 | every sentence is non-empty, stripped and free of periods |
| Llm.FormatResponseWithBullets | utils/llm_connect.py:64-71 | text that already has a bullet line comes back unchanged |
| Llm.SplitBulletLines | utils/llm_connect.py:70 | joined bullets split back into one line per sentence, each "• " + sentence + ".", when no sentence holds a line break |
| Llm.FormatBulletsSentences | utils/llm_connect.py:64-71 | other text becomes one line per sentence, each "• " + sentence + ".", when no sentence holds a line break; no sentences give "", a single empty line |
| Llm.FormatSplitsAcrossLines | utils/llm_connect.py:69-70 | "a\nb" is one sentence but its bullet spans two lines, so the line count follows the sentence count only under that condition |
| Llm.FormatIdempotent | utils/llm_connect.py:64-71 | formatting twice gives the same text as formatting once |
| Llm.PdfTextJoinsPages | utils/llm_connect.py:51-54 | when every page is extracted, the PDF text is the pages joined by "\n" plus a final "\n" (empty for no pages) |
| Llm.PdfTextRaisesAtFirstFailure | utils/llm_connect.py:53-54 | PDF extraction raises exactly when some page raises, with the first failing page's message |
| Llm.PdfTextKeepsRaised | utils/llm_connect.py:53-62 | once a prefix of the pages raises, the whole extraction raises the same way |
| Llm.ReadPdfPages | utils/llm_connect.py:53-54 | the page loop computes `PdfText`: each page's text and "\n" in order, stopping at the first page that raises |
| Llm.ProcessFile | utils/llm_connect.py:47-62 | the loop over pages and the extension dispatch compute the file text: PDF pages each followed by "\n", UTF-8 text, paragraphs joined by "\n", "" otherwise; a reader's exception becomes "Error processing file: <message>" |
| Llm.UnsupportedFileIsEmpty | utils/llm_connect.py:49-60 | an extension other than .pdf, .txt, .doc, .docx yields "" |
| Llm.Contents | utils/llm_connect.py:90-92 | the contents list has one entry per message, in order |
| Llm.BuildRequest | utils/llm_connect.py:88-110 | every provider is shown every message's content in order; Gemini gets the contents list; OpenAI the messages at temperature 0.7 under the configured model or "gpt-3.5-turbo" with no token cap; Grok the messages at temperature 0.7 under "grok-beta" capped at 5000 tokens; an unknown provider raises |
| Llm.AugmentedPrompt | utils/llm_connect.py:76-86 | the prompt ends with the question plus the bullet-point request; with a file it opens with the file's name and text before "Question: "; its length leaves nothing else between the opening and the ending, or before the ending without a file |
| Llm.PromptRecoversQuery | utils/llm_connect.py:76-86 | removing the request suffix leaves text ending in the question, and exactly the question without a file |
| Llm.BuildPrompt | utils/llm_connect.py:81-86 | reads the uploaded file, if any, and yields `AugmentedPrompt` of the question |
| Llm.Augment | utils/llm_connect.py:79-86 | only the last message changes, and only its content, into the augmented prompt |
| Llm.SentRequest | utils/llm_connect.py:79-110 | an empty list raises "list index out of range" before anything is sent; otherwise a request is sent exactly when the provider is known, and it carries the earlier contents unchanged and then the augmented prompt |
| Llm.Reply | utils/llm_connect.py:73-130 | a missing reply text only comes from an answered exchange; an answered exchange returns the back end's text; every failed one returns "Error generating response: " followed by the exception's message |
| Llm.SavedRows | utils/llm_connect.py:111-123 | exactly one row is saved when the back end answered, an e-mail is non-empty, the store is connected and the insert goes through; it holds the e-mail, the unmodified question, the reply, the file name and the timestamp |
| Llm.SavedQueryIsNotPrompt | utils/llm_connect.py:79-117 | the saved question is never the prompt that was sent, which is the question plus the request suffix |
| Llm.FailureIsPrefixed | utils/llm_connect.py:127-130 | every failure reaches the caller as a string opening with "Error generating response: " |
| Llm.AnswerIsUnformatted | utils/llm_connect.py:89-125 | an answered text is returned word for word |
| Llm.LlmConnect.constructor | utils/llm_connect.py:21-26 | the client is built from the configuration and a fresh store is opened from the environment |
| Llm.LlmConnect.GenerateResponse | utils/llm_connect.py:73-130 | returns `Reply`, leaves the list rewritten by `Augment` (untouched when empty), and adds `SavedRows` to the table |
| Llm.Connect | utils/llm_connect.py:21-45 | an unknown provider raises before any store is opened; otherwise a valid client with that configuration, the SDK client built from it, and a store with both credentials from the environment, connected exactly when both are non-empty and the test query succeeds |
| Llm.GetLlmClient | utils/llm_connect.py:132-152 | raises "Unsupported provider: <name>" exactly for unknown names; otherwise a valid client whose configuration is the factory's, with the SDK client built from it and the store facts of `Connect` |
| Db.DatabaseConnect.constructor | utils/db_connect.py:9-13 | reads both credentials from the environment; connected exactly when both are non-empty and the test query succeeds |
| Db.DatabaseConnect.InitializeConnection | utils/db_connect.py:15-29 | succeeds exactly when both credentials are non-empty and the probe reaches the table; a client exists exactly when the credentials are there and its creation did not fail |
| Db.DatabaseConnect.CheckConnection | utils/db_connect.py:31-37 | "connected" exactly when connected; an error exactly when not, "Could not connect to Supabase"; the URL shown only when set, as at most its first 30 characters followed by "..." |
| Db.Shown | utils/db_connect.py:35 | `url[:30]`: a prefix of the URL, 30 long when the URL is at least that long, the whole URL otherwise |
| Db.DatabaseConnect.SaveChat | utils/db_connect.py:39-65 | disconnected: nothing inserted, `False`; a raising insert: nothing inserted, `False`; otherwise exactly one record appended, answering whether the result has `data` |
| App.FormattedPrompt | app.py:45-49 | the framed prompt opens with the accounting instructions and ends with "User question: " and the question |
| App.FormattedPromptInjective | app.py:49 | distinct questions give distinct framed prompts |
| App.RedirectClean | app.py:66-74 | the redirect text does not itself contain "not related to accounting" in lower case |
| App.Screen | app.py:66-74 | a reply whose lower case contains the phrase is replaced by the redirect; any other is kept; what is shown never contains the phrase |
| App.ScreenIdempotent | app.py:66-74 | screening twice is screening once |
| App.Outgoing | app.py:59-63 | the client is sent one user message holding the framed prompt |
| App.SavedQueryIsFramed | app.py:49-63 | the saved question is the framed prompt, instructions included, not the typed words |
| App.SendQuestion | app.py:49-63 | the client's reply and table effect are `Reply` and `SavedRows` of the one-message list holding the framed prompt |
| App.Session.AddMessage | app.py:52 | the history gains exactly the given message and stays valid |
| App.AfterQuestion | app.py:52-81 | the history gains the user's words, then the screened reply unless there is no reply text |
| App.AppendValid | app.py:52-81 | appending a user message, or a reply without the refusal phrase, keeps the history valid |
| App.AfterQuestionValid | app.py:25-81 | the history keeps opening with the welcome, and no reply in it contains the refusal phrase |
| App.Session.EnsureClient | app.py:21-22 | the client is created once per session, for "gemini", and kept afterwards; a new one's store is connected exactly when both credentials are non-empty and the test query succeeds |
| App.Session.EnsureHistory | app.py:25-35 | the history is created once per session, holding the welcome message |
| App.Session.Ask | app.py:43-84 | an empty input changes nothing; otherwise the history becomes `AfterQuestion` of the client's reply, a missing reply shows the `.lower()` error, and the table gains `SavedRows`, so nothing when the store is not connected |
| App.Session.Run | app.py:15-84 | after a run the session has a client and a valid history, and the client is never replaced |

## Left out

- The SDK calls that answer a question (`GenerativeModel.generate_content`, `chat.completions.create`) are a function parameter. The model records only the request each provider is sent and the outcome it returns, not network behaviour, retries or the SDKs' own checks.
- Client construction (`genai.configure`, `genai.GenerativeModel(...)`, `OpenAI(...)`) is modelled by `ClientSetup`, which records only the arguments `_initialize_client` passes. The SDKs' own behaviour is left out: `OpenAI(api_key=None)` falls back to `OPENAI_API_KEY` and raises `OpenAIError` when that is unset too, and `genai.configure` sets a process-wide key and looks one up in the environment when given none. So in the model, building a client never fails for a known provider.
- Llm.Connect: raises exactly for an unknown provider name. The source can also raise while building the SDK client (an `OpenAIError` for a missing key), which the model does not capture.
- Llm.GetLlmClient: raises exactly for an unknown provider name, for the same reason as `Llm.Connect`. The SDK's missing-key error is not modelled. The default argument `provider="openai"` is not modelled either: every caller passes a name.
- Llm.ClientUsesConfiguredKey: states the key passed to the SDK. It does not state the key the SDK ends up using, because the SDK's fallback to `OPENAI_API_KEY` or to its own environment lookup is not modelled.
- Llm.FactoryGrokKeyUnused: states that the Grok `OpenAI(...)` constructor is passed `None`. In the source that call then uses `OPENAI_API_KEY` (sent to api.x.ai) or raises; neither outcome is modelled.
- PDF parsing (`PyPDF2`), Word parsing (`python-docx`) and UTF-8 decoding are left out. Each document is described by what its readers yield: page texts, paragraph texts or a decoding result, each of which may raise.
- The Supabase client is left out. Its connection test and insert are inputs (`Probe`, `InsertOutcome`). The remote table is a sequence that grows by one record per successful insert.
- `datetime.utcnow().isoformat()` is passed in as the string `now`.
- `load_dotenv` is left out. The environment is passed in as a map.
- Every `print` is left out: the connection warning in `LLMConnect.__init__`, "Using Grok API", and the logging in the store. So `LlmConnect.constructor` does not call `check_connection`, whose only use there is that warning.
- The Streamlit rendering (`st.title`, `st.chat_message`, `st.markdown`, the spinner, the history display loop) is left out. `st.error` is modelled by the error text `Session.Ask` returns.
- `components/widgets.py` (page header, login box, upload widget, including the e-mail format warning) is not part of this model. The typed e-mail and the uploaded file are inputs to `Session.Ask` and `Session.Run`.
- Py.Lower: lowers the ASCII capitals and the KELVIN SIGN (U+212A, which Python lowers to `k`), the only characters whose lower case is ASCII. Other non-ASCII characters are kept as they are, where Python's `str.lower` lowers them too, and lowers U+0130 to two characters. Neither changes a decision the core makes with `lower()`: the provider names and the refusal phrase are ASCII, and U+0130 adds a U+0307 after an `i`, which no comparison then matches. `Lower` of an arbitrary non-ASCII text differs from Python's.
- Llm.FormatBulletsSentences: the line structure (count and contents) is proved only when no sentence holds a line break. `FormatSplitsAcrossLines` shows a sentence with a line break spreads over several lines.
- Llm.LlmConnect.GenerateResponse: in the source, an exception raised by `save_chat` itself is caught and logged. Here `SaveChat` cannot raise, because its possible failures are already modelled as `InsertRaised`.
- Llm.Connect: the source's `LLMConnect` stays mutable after construction. Here its configuration is a constant, which is what makes `generate_response`'s unknown-provider branch unreachable.
- App.Session.Run: states that the session is valid and that the client is kept. The exact history and table effects are those of `Session.Ask`, which `Run` calls.
