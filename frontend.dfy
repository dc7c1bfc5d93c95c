/**
 * The session state of the chatbot page and its event handlers, with the
 * widgets, the markup and the HTTP calls taken out: each handler receives
 * the back end as a function from the request it would post to the reply
 * it would read, or the failure that stops it.
 */
module Frontend {
  import opened Wrappers
  import opened Profile
  import opened Prompts
  import Backend

  datatype Phase = Collecting | Confirming | Qa

  /** A request that fails, or a reply the page cannot read. */
  datatype Failure = RequestFailed | BadResponse

  /** The body posted to `/chat`. */
  datatype ChatRequest = ChatRequest(history: seq<Message>, language: string)

  /** The body posted to `/ask`. */
  datatype AskRequest = AskRequest(userInfo: Option<UserInfo>, history: seq<Message>, newMessage: string, language: string)

  const Languages: set<string> := {"en", "he"}

  /** The canned messages the page writes into the conversation itself. */
  datatype Canned = UserConfirmed | AssistantConfirmed | UserCorrected

  function CannedText(key: Canned, lang: string): string {
    match key
    case UserConfirmed => if lang == "he" then "כן, המידע נכון." else "Yes, this is correct."
    case AssistantConfirmed => if lang == "he" then "מעולה! איך אני יכול/ה לעזור היום?" else "Great! How can I help you today?"
    case UserCorrected => if lang == "he" then "לא, אני צריך/ה לבצע תיקון." else "No, I need to make a correction."
  }

  /** A `/chat` reply that announces `confirming` carries a record. */
  predicate WellFormed(reply: Backend.ChatResponse) {
    reply.phase == Backend.ChatPhase.Confirming ==> reply.userInfo.Some?
  }

  /** Every reply the back end's `/chat` gives is well formed. */
  lemma BackendRepliesWellFormed(
    history: seq<Message>, language: string,
    llm: seq<Message> -> Option<string>, loads: string -> Option<Json.Value>, repr: seq<Message> -> string
  )
    ensures var r := Backend.Chat(history, language, llm, loads, repr);
      r.Ok? ==> WellFormed(r.value)
  {
    Backend.ChatShape(history, language, llm, loads, repr);
  }

  class Session {
    var lang: string
    var phase: Phase
    var history: seq<Message>
    var userInfo: Option<UserInfo>
    var pendingInfo: Option<UserInfo>
    var showWelcome: bool

    /**
     * The language is one the selector offers, a session waiting for
     * confirmation holds the record to confirm, and a session answering
     * questions holds the confirmed record.
     */
    predicate Consistent()
      reads this
    {
      && lang in Languages
      && (phase == Confirming ==> pendingInfo.Some?)
      && (phase == Qa ==> userInfo.Some?)
    }

    /** The first run: the language picked and an empty conversation. */
    constructor (selected: string)
      requires selected in Languages
      ensures lang == selected && phase == Collecting && history == []
      ensures userInfo == None && pendingInfo == None && !showWelcome
      ensures Consistent()
    {
      lang := selected;
      history := [];
      phase := Collecting;
      userInfo := None;
      pendingInfo := None;
      showWelcome := false;
    }

    /** A run with the selector at `selected`: a new language starts the conversation over. */
    method SelectLanguage(selected: string)
      requires selected in Languages
      modifies this
      ensures lang == selected && showWelcome == old(showWelcome)
      ensures selected != old(lang) ==>
        history == [] && phase == Collecting && userInfo == None && pendingInfo == None
      ensures selected == old(lang) ==>
        history == old(history) && phase == old(phase)
        && userInfo == old(userInfo) && pendingInfo == old(pendingInfo)
      ensures old(Consistent()) ==> Consistent()
    {
      if selected != lang {
        lang := selected;
        history := [];
        phase := Collecting;
        userInfo := None;
        pendingInfo := None;
      }
    }

    /** The "yes, this is correct" button. */
    method ConfirmYes()
      requires phase == Confirming
      modifies this
      ensures userInfo == old(pendingInfo) && phase == Qa && showWelcome
      ensures pendingInfo == old(pendingInfo) && lang == old(lang)
      ensures history == old(history)
        + [Message(User, CannedText(UserConfirmed, lang)), Message(Assistant, CannedText(AssistantConfirmed, lang))]
      ensures old(Consistent()) ==> Consistent()
    {
      userInfo := pendingInfo;
      phase := Qa;
      showWelcome := true;
      history := history + [Message(User, CannedText(UserConfirmed, lang))];
      history := history + [Message(Assistant, CannedText(AssistantConfirmed, lang))];
    }

    /**
     * The "no, I need to change something" button: back to collecting
     * whatever the reply says, with the correction and the reply appended.
     * Nothing guards that request, so a failure stops the run right after
     * the correction.
     */
    method ConfirmNo(chat: ChatRequest -> Result<Backend.ChatResponse, Failure>)
      requires phase == Confirming
      modifies this
      ensures phase == Collecting && pendingInfo == None
      ensures userInfo == old(userInfo) && lang == old(lang) && showWelcome == old(showWelcome)
      ensures var sent := old(history) + [Message(User, CannedText(UserCorrected, lang))];
        var reply := chat(ChatRequest(sent, lang));
        history == sent + (if reply.Ok? then [Message(Assistant, reply.value.assistant)] else [])
      ensures old(Consistent()) ==> Consistent()
    {
      phase := Collecting;
      pendingInfo := None;
      history := history + [Message(User, CannedText(UserCorrected, lang))];
      var reply := chat(ChatRequest(history, lang));
      if reply.Ok? {
        history := history + [Message(Assistant, reply.value.assistant)];
      }
    }

    /**
     * A message typed while collecting or confirming: it is appended and
     * posted with the whole conversation; a reply is appended, and only a
     * `confirming` reply moves the phase and sets the record to confirm.
     * A failure leaves the message appended and nothing else changed.
     */
    method ChatInput(prompt: string, chat: ChatRequest -> Result<Backend.ChatResponse, Failure>)
      requires phase == Collecting || phase == Confirming
      modifies this
      ensures lang == old(lang) && userInfo == old(userInfo) && showWelcome == old(showWelcome)
      ensures prompt == "" ==> history == old(history) && phase == old(phase) && pendingInfo == old(pendingInfo)
      ensures prompt != "" ==>
        var sent := old(history) + [Message(User, prompt)];
        var reply := chat(ChatRequest(sent, lang));
        && history == sent + (if reply.Ok? then [Message(Assistant, reply.value.assistant)] else [])
        && (if reply.Ok? && reply.value.phase == Backend.ChatPhase.Confirming
            then phase == Confirming && pendingInfo == reply.value.userInfo
            else phase == old(phase) && pendingInfo == old(pendingInfo))
      ensures old(Consistent())
        && (prompt != "" ==> var reply := chat(ChatRequest(old(history) + [Message(User, prompt)], lang));
                             reply.Ok? ==> WellFormed(reply.value))
        ==> Consistent()
    {
      if prompt != "" {
        history := history + [Message(User, prompt)];
        var reply := chat(ChatRequest(history, lang));
        if reply.Ok? {
          history := history + [Message(Assistant, reply.value.assistant)];
          if reply.value.phase == Backend.ChatPhase.Confirming {
            phase := Confirming;
            pendingInfo := reply.value.userInfo;
          }
        }
      }
    }

    /**
     * A question typed while answering questions: the welcome goes away,
     * the question is appended, and `/ask` gets the conversation as it was
     * before the question, which travels on its own. Nothing here changes
     * the phase or either record, and in a consistent session the request
     * carries the confirmed record.
     */
    method QaInput(prompt: string, ask: AskRequest -> Result<string, Failure>)
      requires phase == Qa
      modifies this
      ensures phase == Qa && userInfo == old(userInfo) && pendingInfo == old(pendingInfo) && lang == old(lang)
      ensures prompt == "" ==> history == old(history) && showWelcome == old(showWelcome)
      ensures prompt != "" ==>
        var reply := ask(AskRequest(userInfo, old(history), prompt, lang));
        && !showWelcome
        && history == old(history) + [Message(User, prompt)]
           + (if reply.Ok? then [Message(Assistant, reply.value)] else [])
      ensures old(Consistent()) ==> Consistent()
      // The record `/ask` receives is the confirmed one, never missing.
      ensures old(Consistent()) ==> userInfo.Some?
    {
      if prompt != "" {
        showWelcome := false;
        history := history + [Message(User, prompt)];
        var request := AskRequest(userInfo, history[..|history| - 1], prompt, lang);
        var reply := ask(request);
        if reply.Ok? {
          history := history + [Message(Assistant, reply.value)];
        }
      }
    }
  }
}
