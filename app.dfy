/** The chat page: one run of the page script over the per-browser session
    state. The first run creates the provider client and the history (opened
    by a welcome message); a run with a question frames it with the accounting
    instructions, asks the client, screens the reply for a refusal and
    replaces a refusal by a fixed redirect before adding it to the history. */
module App {
  import opened Wrappers
  import opened Py
  import opened Db
  import opened Llm

  /** The provider the page always asks for. */
  const LlmProvider := "gemini"

  const Welcome := "\U{1F44B} Welcome! I'm your AI Accountant. I can help you with:\n"
    + "* Accounting principles and concepts\n* Financial statements analysis\n"
    + "* Bookkeeping questions\n* Tax-related queries\n* Business financial planning\n"
    + "* Audit-related topics\n\nPlease upload relevant documents or ask your accounting questions!"

  /** The instructions put in front of every question. */
  const AccountingContext := "You are an AI Accountant. Only answer questions related to accounting, \n"
    + "    finance, taxation, auditing, or business financial matters. If the question is not related to \n"
    + "    these topics, politely decline to answer and remind the user of your accounting focus."

  /** `f"{accounting_context}\n\nUser question: {prompt}"` */
  function FormattedPrompt(prompt: string): (r: string)
    ensures StartsWith(r, AccountingContext) && EndsWith(r, "\n\nUser question: " + prompt)
    ensures |r| == |AccountingContext| + |"\n\nUser question: "| + |prompt|
  {
    AccountingContext + "\n\nUser question: " + prompt
  }

  /** Distinct questions are framed into distinct prompts. */
  lemma FormattedPromptInjective(p: string, q: string)
    requires FormattedPrompt(p) == FormattedPrompt(q)
    ensures p == q
  {
    var n := |AccountingContext| + |"\n\nUser question: "|;
    assert FormattedPrompt(p)[n..] == p;
    assert FormattedPrompt(q)[n..] == q;
  }

  // ---------------------------------------------------------------------------
  // The refusal screen
  // ---------------------------------------------------------------------------

  /** The phrase whose presence, in the lower-cased reply, marks a refusal. */
  const Trigger := "not related to accounting"

  /** The characters of the phrase. */
  const TriggerChars := {'n', 'o', 't', ' ', 'r', 'e', 'l', 'a', 'd', 'c', 'u', 'i', 'g'}

  lemma TriggerCharsCover()
    ensures forall m :: 0 <= m < |Trigger| ==> Trigger[m] in TriggerChars
  {
  }

  /** The redirect's continuation lines are indented by sixteen spaces. */
  const Indent := "                "

  function Line(t: string): string {
    "\n" + Indent + t
  }

  const RedirectIntro := "I can only assist with " + "accounting and finance " + "related questions. "

  /** The fixed reply shown instead of a refusal. */
  const Redirect := RedirectIntro + Line("Please ask me about:") + Line("\U{2022} Accounting principles")
    + Line("\U{2022} Financial statements") + Line("\U{2022} Bookkeeping") + Line("\U{2022} Taxation")
    + Line("\U{2022} Business finances") + Line("\U{2022} Auditing")

  lemma RedirectIntroClean()
    ensures !Contains(Lower(RedirectIntro), Trigger)
  {
    TriggerCharsCover();
    var a := "I can only assist with ";
    NoOccurrenceInShort(a, Trigger);
    NoOccurrenceInShort("accounting and finance ", Trigger);
    // 'w' of "with" and 'f' of "finance" are not in the phrase and lie closer together than its length.
    NoOccurrenceAcross(a, "accounting and finance ", Trigger, TriggerChars, 18, 15);
    a := a + "accounting and finance ";
    NoOccurrenceInShort("related questions. ", Trigger);
    // 'f' of "finance" and 'q' of "questions".
    NoOccurrenceAcross(a, "related questions. ", Trigger, TriggerChars, |a| - 8, 8);
  }

  /** A line of the redirect, shorter than the phrase and opening with a
      character outside it, is free of the phrase, and so is anything free of
      it followed by such a line. */
  lemma AppendLineClean(a: string, t: string)
    requires 0 < |t| < |Trigger| && LowerChar(t[0]) !in TriggerChars
    requires !Contains(Lower(a), Trigger)
    ensures !Contains(Lower(a + Line(t)), Trigger)
  {
    TriggerCharsCover();
    NoOccurrenceInShort("\n" + Indent, Trigger);
    NoOccurrenceInShort(t, Trigger);
    NoOccurrenceAcross("\n" + Indent, t, Trigger, TriggerChars, -1, 0);
    assert Line(t) == "\n" + Indent + t;
    NoOccurrenceAcross(a, Line(t), Trigger, TriggerChars, -1, 0);
  }

  /** The redirect does not itself trip the screen. */
  lemma RedirectClean()
    ensures !Contains(Lower(Redirect), Trigger)
  {
    RedirectIntroClean();
    var a := RedirectIntro;
    AppendLineClean(a, "Please ask me about:");
    a := a + Line("Please ask me about:");
    AppendLineClean(a, "\U{2022} Accounting principles");
    a := a + Line("\U{2022} Accounting principles");
    AppendLineClean(a, "\U{2022} Financial statements");
    a := a + Line("\U{2022} Financial statements");
    AppendLineClean(a, "\U{2022} Bookkeeping");
    a := a + Line("\U{2022} Bookkeeping");
    AppendLineClean(a, "\U{2022} Taxation");
    a := a + Line("\U{2022} Taxation");
    AppendLineClean(a, "\U{2022} Business finances");
    a := a + Line("\U{2022} Business finances");
    AppendLineClean(a, "\U{2022} Auditing");
  }

  /** The refusal screen: a reply whose lower case holds the phrase is replaced
      by the redirect, any other reply is kept; either way what is shown is free
      of the phrase. */
  function Screen(response: string): (r: string)
    ensures !Contains(Lower(r), Trigger)
    ensures Contains(Lower(response), Trigger) ==> r == Redirect
    ensures !Contains(Lower(response), Trigger) ==> r == response
  {
    RedirectClean();
    if Contains(Lower(response), Trigger) then Redirect else response
  }

  /** Screening a screened reply changes nothing. */
  lemma ScreenIdempotent(response: string)
    ensures Screen(Screen(response)) == Screen(response)
  {
  }

  /** What `st.error` shows when the client returns `None` and `.lower()` fails on it. */
  const NoneReplyError := "Error: 'NoneType' object has no attribute 'lower'"

  /** The question as it is sent to the client: one fresh user message. */
  function Outgoing(prompt: string): (msgs: seq<Message>)
    ensures |msgs| == 1 && msgs[0].role == "user" && msgs[0].content == FormattedPrompt(prompt)
  {
    [Message("user", FormattedPrompt(prompt))]
  }

  /** The question saved with a chat is the framed prompt, instructions
      included, and not the words the user typed. */
  lemma SavedQueryIsFramed(config: LlmConfig, client: ClientSetup, prompt: string, file: Option<UploadedFile>,
                           backend: Backend, userEmail: string, connected: bool, now: string, insert: InsertOutcome)
    requires SavedRows(config, client, Outgoing(prompt), file, backend, Some(userEmail), connected, now, insert) != []
    ensures var row := SavedRows(config, client, Outgoing(prompt), file, backend, Some(userEmail), connected, now, insert)[0];
            row.query == FormattedPrompt(prompt) && StartsWith(row.query, AccountingContext) && row.query != prompt
  {
  }

  /** The history after a question: the user's words, then the screened reply
      unless the client returned no text. */
  function AfterQuestion(history: seq<Message>, prompt: string, reply: Option<string>): (h: seq<Message>)
    ensures |h| == |history| + (if reply.Some? then 2 else 1)
    ensures h[..|history|] == history && h[|history|] == Message("user", prompt)
    ensures reply.Some? ==> h[|history| + 1] == Message("assistant", Screen(reply.value))
  {
    history + [Message("user", prompt)] + (if reply.Some? then [Message("assistant", Screen(reply.value))] else [])
  }

  /** The history opens with the welcome, and no reply shown after it holds the refusal phrase. */
  ghost predicate HistoryValid(h: seq<Message>) {
    |h| >= 1 && h[0] == Message("assistant", Welcome)
    && forall i :: 1 <= i < |h| && h[i].role == "assistant" ==> !Contains(Lower(h[i].content), Trigger)
  }

  /** Adding a user message, or a reply free of the refusal phrase, keeps the history valid. */
  lemma AppendValid(h: seq<Message>, m: Message)
    requires HistoryValid(h)
    requires m.role == "assistant" ==> !Contains(Lower(m.content), Trigger)
    ensures HistoryValid(h + [m])
  {
    var h' := h + [m];
    forall i | 1 <= i < |h'| && h'[i].role == "assistant" ensures !Contains(Lower(h'[i].content), Trigger) {
      if i < |h| {
        assert h'[i] == h[i];
      }
    }
  }

  /** A question keeps the history valid. */
  lemma AfterQuestionValid(history: seq<Message>, prompt: string, reply: Option<string>)
    requires HistoryValid(history)
    ensures HistoryValid(AfterQuestion(history, prompt, reply))
  {
    AppendValid(history, Message("user", prompt));
    if reply.Some? {
      AppendValid(history + [Message("user", prompt)], Message("assistant", Screen(reply.value)));
    }
  }

  /** The framed question goes to the client as a fresh one-message list,
      together with the uploaded file and the typed e-mail. */
  method SendQuestion(client: LlmConnect, prompt: string, uploadedFile: Option<UploadedFile>, userEmail: string,
                      backend: Backend, now: string, insert: InsertOutcome)
    returns (response: Option<string>)
    requires client.Valid()
    modifies client.db`table
    ensures client.Valid()
    ensures response == Reply(client.config, client.client, Outgoing(prompt), uploadedFile, backend)
    ensures client.db.table == old(client.db.table)
              + SavedRows(client.config, client.client, Outgoing(prompt), uploadedFile, backend,
                          Some(userEmail), client.db.isConnected, now, insert)
  {
    var formattedPrompt := FormattedPrompt(prompt);
    var outgoing := new Message[] [Message("user", formattedPrompt)];
    assert outgoing[..] == Outgoing(prompt);
    response := client.GenerateResponse(outgoing, uploadedFile, Some(userEmail), backend, now, insert);
  }

  /** `st.session_state` for one browser session. */
  class Session {
    /** `st.session_state.llm_client`, absent until the first run. */
    var llmClient: LlmConnect?
    /** `st.session_state.messages`, absent until the first run. */
    var messages: Option<seq<Message>>

    ghost predicate Valid()
      reads this, llmClient, if llmClient != null then {llmClient.db} else {}
    {
      (llmClient != null ==> llmClient.Valid() && llmClient.config.provider == LlmProvider)
      && (messages.Some? ==> HistoryValid(messages.value))
    }

    /** A fresh session holds nothing. */
    constructor ()
      ensures Valid() && llmClient == null && messages.None?
    {
      llmClient := null;
      messages := None;
    }

    /** The client is created once per session, for "gemini", with a store
        opened from the environment. */
    method EnsureClient(env: map<string, string>, probe: Probe, existing: seq<ChatRecord>)
      requires Valid()
      modifies this`llmClient
      ensures Valid() && llmClient != null
      ensures old(llmClient) != null ==> llmClient == old(llmClient)
      ensures old(llmClient) == null ==>
                fresh(llmClient) && fresh(llmClient.db) && llmClient.config == GetLlmConfig(LlmProvider, env).value
                && llmClient.client == InitializeClient(llmClient.config, env).value
                && llmClient.db.table == existing
                && (llmClient.db.isConnected <==> HasCredentials(GetEnv(env, UrlEnv), GetEnv(env, KeyEnv)) && probe.Reachable?)
    {
      if llmClient == null {
        ProviderNameParses(Gemini);
        var created := GetLlmClient(LlmProvider, env, probe, existing);
        llmClient := created.value;
      }
    }

    /** The history is created once per session, holding the welcome. */
    method EnsureHistory()
      requires Valid()
      modifies this`messages
      ensures Valid() && messages.Some?
      ensures old(messages).Some? ==> messages == old(messages)
      ensures old(messages).None? ==> messages == Some([Message("assistant", Welcome)])
    {
      if messages.None? {
        messages := Some([Message("assistant", Welcome)]);
      }
    }

    /** Handling a typed question: an empty input does nothing; otherwise the
        user's words join the history, the framed question is sent as a
        one-message list, and the screened reply joins the history too. A
        `None` reply fails at `.lower()`, so only the error is shown. A store
        that is not connected gains no rows. */
    method Ask(prompt: string, uploadedFile: Option<UploadedFile>, userEmail: string,
               backend: Backend, now: string, insert: InsertOutcome)
      returns (error: Option<string>)
      requires Valid() && llmClient != null && messages.Some?
      modifies this`messages, llmClient.db`table
      ensures Valid() && messages.Some?
      ensures prompt == "" ==> messages == old(messages) && llmClient.db.table == old(llmClient.db.table) && error.None?
      ensures prompt != "" ==>
                var reply := Reply(llmClient.config, llmClient.client, Outgoing(prompt), uploadedFile, backend);
                messages.value == AfterQuestion(old(messages.value), prompt, reply)
                && (error.Some? <==> reply.None?)
                && (error.Some? ==> error.value == NoneReplyError)
                && llmClient.db.table == old(llmClient.db.table)
                   + SavedRows(llmClient.config, llmClient.client, Outgoing(prompt), uploadedFile, backend,
                               Some(userEmail), llmClient.db.isConnected, now, insert)
      ensures !llmClient.db.isConnected ==> llmClient.db.table == old(llmClient.db.table)
    {
      if prompt == "" {
        return None;
      }
      ghost var history := messages.value;
      AddMessage(Message("user", prompt));
      var response := SendQuestion(llmClient, prompt, uploadedFile, userEmail, backend, now, insert);
      if response.None? {
        return Some(NoneReplyError);
      }
      AddMessage(Message("assistant", Screen(response.value)));
      error := None;
    }

    /** `st.session_state.messages.append(...)`, for a user message or a screened reply. */
    method AddMessage(m: Message)
      requires Valid() && messages.Some?
      requires m.role == "assistant" ==> !Contains(Lower(m.content), Trigger)
      modifies this`messages
      ensures Valid() && messages == Some(old(messages.value) + [m])
    {
      AppendValid(messages.value, m);
      messages := Some(messages.value + [m]);
    }

    /** One run of the page script: create what the session lacks, then handle
        the question typed this run, if any. */
    method Run(env: map<string, string>, probe: Probe, existing: seq<ChatRecord>,
               prompt: Option<string>, uploadedFile: Option<UploadedFile>, userEmail: string,
               backend: Backend, now: string, insert: InsertOutcome)
      returns (error: Option<string>)
      requires Valid()
      modifies this, if llmClient != null then {llmClient.db} else {}
      ensures Valid() && llmClient != null && messages.Some?
      ensures old(llmClient) != null ==> llmClient == old(llmClient)
      ensures old(messages).Some? ==> |messages.value| >= |old(messages).value|
      ensures prompt.None? ==> error.None?
    {
      EnsureClient(env, probe, existing);
      EnsureHistory();
      error := None;
      if prompt.Some? {
        error := Ask(prompt.value, uploadedFile, userEmail, backend, now, insert);
      }
    }
  }
}
