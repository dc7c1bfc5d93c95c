/**
 * The chatbot back end without its transport: the `/chat` decision between
 * collecting and confirming, the knowledge-base loader and the `/ask`
 * error mapping. The language model, `json.loads`, the Python `repr` of
 * the history and the knowledge-base files are parameters.
 */
module Backend {
  import opened Wrappers
  import opened Json
  import opened Text
  import opened Profile
  import opened Prompts

  /** An `HTTPException`, or the plain 500 answer to an exception nothing catches. */
  datatype HttpError = HttpError(status: int, detail: string)

  /** What `get_llm_response` raises when the completion call fails. */
  const LlmFailure: HttpError := HttpError(500, "Failed to get response from LLM.")
  /** The answer to an exception that escapes the handler. */
  const Uncaught: HttpError := HttpError(500, "Internal Server Error")

  // ---------------------------------------------------------------------
  // `/chat`

  datatype ChatPhase = Collecting | Confirming

  /** `{"phase": ..., "assistant": ..., "user_info": ...}`. */
  datatype ChatResponse = ChatResponse(phase: ChatPhase, assistant: string, userInfo: Option<UserInfo>)

  /** Replies of the extraction step that say "not enough information yet". */
  const Sentinels: set<string> := {"none", "null", "{}"}

  /**
   * `extracted_json_str.strip().lower() in ["none", "null", "{}"]`: a
   * sentinel is "none", "null" or "{}" in any ASCII letter case, with
   * nothing but whitespace around it.
   */
  predicate IsSentinel(reply: string)
    ensures IsSentinel(reply) <==> exists i, n :: PaddedAt(reply, i, n)
  {
    SentinelShape(reply);
    Lower(Strip(reply)) in Sentinels
  }

  /** The `n` characters of `reply` at `i` spell a sentinel, and only whitespace surrounds them. */
  predicate PaddedAt(reply: string, i: int, n: int) {
    && 0 <= i && 0 <= n && i + n <= |reply|
    && Lower(reply[i..i + n]) in Sentinels
    && AllIn(reply[..i], PyWhitespace) && AllIn(reply[i + n..], PyWhitespace)
  }

  /** A sentinel starts and ends with a letter or a brace, never with whitespace. */
  lemma SentinelEnds(core: string)
    requires Lower(core) in Sentinels
    ensures core != [] && core[0] !in PyWhitespace && core[|core| - 1] !in PyWhitespace
  {
    var low := Lower(core);
    assert low == "none" || low == "null" || low == "{}";
    assert low[0] == LowerChar(core[0]) && low[|low| - 1] == LowerChar(core[|core| - 1]);
  }

  lemma SentinelShape(reply: string)
    ensures Lower(Strip(reply)) in Sentinels <==> exists i, n :: PaddedAt(reply, i, n)
  {
    if Lower(Strip(reply)) in Sentinels {
      SentinelPadded(reply);
    }
    if exists i, n :: PaddedAt(reply, i, n) {
      var i, n :| PaddedAt(reply, i, n);
      PaddedSentinel(reply, i, n);
    }
  }

  /** A stripped sentinel sits in the reply with only whitespace around it. */
  lemma SentinelPadded(reply: string)
    requires Lower(Strip(reply)) in Sentinels
    ensures exists i, n :: PaddedAt(reply, i, n)
  {
    var r := Strip(reply);
    var i :| 0 <= i <= |reply| - |r| && CutFrom(reply, r, i, PyWhitespace);
    CutPadding(reply, r, i, PyWhitespace);
    assert PaddedAt(reply, i, |r|);
  }

  /** A sentinel with only whitespace around it is what stripping leaves. */
  lemma PaddedSentinel(reply: string, i: int, n: int)
    requires PaddedAt(reply, i, n)
    ensures Lower(Strip(reply)) in Sentinels
  {
    var core := reply[i..i + n];
    assert reply == reply[..i] + core + reply[i + n..];
    StripCharsPadded(reply[..i], core, reply[i + n..], PyWhitespace);
    SentinelEnds(core);
    StripCharsClean(core, PyWhitespace);
  }

  /** Whitespace around the extraction reply does not change whether it is a sentinel. */
  lemma SentinelIgnoresPadding(before: string, reply: string, after: string)
    requires AllIn(before, PyWhitespace) && AllIn(after, PyWhitespace)
    ensures IsSentinel(before + reply + after) == IsSentinel(reply)
  {
    StripCharsPadded(before, reply, after, PyWhitespace);
  }

  /** What the extraction reply amounts to. */
  datatype Extraction =
    | Incomplete             // a sentinel, a decode error or a record `UserInfo` refuses
    | Complete(info: UserInfo)
    | NotAnObject            // decodes to something `UserInfo(**x)` cannot unpack

  /** The `try` block of `chat` up to the record: `loads` is `json.loads`, None on a decode error. */
  function Extract(reply: string, loads: string -> Option<Value>): (e: Extraction)
    ensures e.Complete? ==> Valid(e.info)
    ensures e.Complete? <==>
      && !IsSentinel(reply) && loads(reply).Some? && loads(reply).value.Obj?
      && FromJson(loads(reply).value.fields).Some?
    ensures e.Complete? ==> FromJson(loads(reply).value.fields) == Some(e.info)
    ensures e.NotAnObject? <==> !IsSentinel(reply) && loads(reply).Some? && !loads(reply).value.Obj?
  {
    if IsSentinel(reply) then Incomplete
    else
      match loads(reply)
      case None => Incomplete
      case Some(v) =>
        if !v.Obj? then NotAnObject
        else
          match FromJson(v.fields)
          case None => Incomplete
          case Some(u) => Complete(u)
  }

  /**
   * `chat(payload)`: `llm` answers a list of messages, None when the call
   * fails; `repr` renders the history inside the extraction prompt.
   */
  function Chat(
    history: seq<Message>, language: string,
    llm: seq<Message> -> Option<string>, loads: string -> Option<Value>, repr: seq<Message> -> string
  ): (r: Result<ChatResponse, HttpError>)
    ensures r.Err? ==> r.error == LlmFailure || r.error == Uncaught
  {
    match llm(ExtractionPrompt(history, repr))
    case None => Err(LlmFailure)
    case Some(reply) =>
      match Extract(reply, loads)
      case NotAnObject => Err(Uncaught)
      case Complete(u) =>
        (match llm(InfoConfirmationPrompt(u, language))
         case None => Err(LlmFailure)
         case Some(text) => Ok(ChatResponse(Confirming, text, Some(u))))
      case Incomplete =>
        (match llm(InfoCollectionPrompt(history, language))
         case None => Err(LlmFailure)
         case Some(text) => Ok(ChatResponse(Collecting, text, None)))
  }

  /**
   * The shape of every answer: a user record comes with `confirming` and
   * only with it, that record meets the constraints, and every failure is
   * a 500.
   */
  lemma ChatShape(
    history: seq<Message>, language: string,
    llm: seq<Message> -> Option<string>, loads: string -> Option<Value>, repr: seq<Message> -> string
  )
    ensures var r := Chat(history, language, llm, loads, repr);
      && (r.Ok? ==> (r.value.phase == Confirming <==> r.value.userInfo.Some?))
      && (r.Ok? && r.value.userInfo.Some? ==> Valid(r.value.userInfo.value))
      && (r.Err? ==> r.error.status == 500)
  {
  }

  /**
   * `confirming` comes back exactly when the extraction reply decodes to an
   * object `UserInfo` accepts and the confirmation call answers.
   */
  lemma ChatConfirms(
    history: seq<Message>, language: string,
    llm: seq<Message> -> Option<string>, loads: string -> Option<Value>, repr: seq<Message> -> string
  )
    ensures var r := Chat(history, language, llm, loads, repr);
      r.Ok? && r.value.phase == Confirming <==>
        && llm(ExtractionPrompt(history, repr)).Some?
        && var reply := llm(ExtractionPrompt(history, repr)).value;
        && !IsSentinel(reply) && loads(reply).Some? && loads(reply).value.Obj?
        && FromJson(loads(reply).value.fields).Some?
        && llm(InfoConfirmationPrompt(FromJson(loads(reply).value.fields).value, language)).Some?
  {
  }

  /**
   * The record a `confirming` answer returns is the one built from the
   * decoded object, and its text is the model's answer to the
   * confirmation prompt for that record.
   */
  lemma ChatConfirmsRecord(
    history: seq<Message>, language: string,
    llm: seq<Message> -> Option<string>, loads: string -> Option<Value>, repr: seq<Message> -> string
  )
    requires var r := Chat(history, language, llm, loads, repr); r.Ok? && r.value.phase == Confirming
    ensures var reply := llm(ExtractionPrompt(history, repr)).value;
      var u := FromJson(loads(reply).value.fields).value;
      Chat(history, language, llm, loads, repr) == Ok(ChatResponse(Confirming, llm(InfoConfirmationPrompt(u, language)).value, Some(u)))
  {
  }

  /**
   * When `/chat` fails: a 500 for a failed model call, whichever of the
   * three calls it is (the extraction call runs outside the `try`, and the
   * `except` does not catch the confirmation call's failure), and the plain
   * 500 of an uncaught exception exactly when the reply decodes to a
   * non-object.
   */
  lemma ChatFails(
    history: seq<Message>, language: string,
    llm: seq<Message> -> Option<string>, loads: string -> Option<Value>, repr: seq<Message> -> string
  )
    ensures Chat(history, language, llm, loads, repr) == Err(LlmFailure) <==>
      || llm(ExtractionPrompt(history, repr)).None?
      || (var e := Extract(llm(ExtractionPrompt(history, repr)).value, loads);
          || (e.Complete? && llm(InfoConfirmationPrompt(e.info, language)).None?)
          || (e.Incomplete? && llm(InfoCollectionPrompt(history, language)).None?))
    ensures Chat(history, language, llm, loads, repr) == Err(Uncaught) <==>
      && llm(ExtractionPrompt(history, repr)).Some?
      && Extract(llm(ExtractionPrompt(history, repr)).value, loads).NotAnObject?
  {
  }

  /** The answer of the collecting branch: the model's reply to the collection prompt, no record. */
  function Collect(history: seq<Message>, language: string, llm: seq<Message> -> Option<string>): Result<ChatResponse, HttpError> {
    match llm(InfoCollectionPrompt(history, language))
    case None => Err(LlmFailure)
    case Some(text) => Ok(ChatResponse(Collecting, text, None))
  }

  /**
   * A sentinel reply, one that does not decode, or a record `UserInfo`
   * refuses, all lead back to collecting, without the decoder's result
   * mattering in the sentinel case.
   */
  lemma ChatCollects(
    history: seq<Message>, language: string,
    llm: seq<Message> -> Option<string>, loads: string -> Option<Value>, repr: seq<Message> -> string
  )
    requires llm(ExtractionPrompt(history, repr)).Some?
    requires var reply := llm(ExtractionPrompt(history, repr)).value;
      || IsSentinel(reply)
      || loads(reply).None?
      || (loads(reply).value.Obj? && FromJson(loads(reply).value.fields).None?)
    ensures Chat(history, language, llm, loads, repr) == Collect(history, language, llm)
  {
  }

  /** A reply that decodes to a list, a number, a string or a boolean escapes the handler. */
  lemma ChatRejectsNonObject(
    history: seq<Message>, language: string,
    llm: seq<Message> -> Option<string>, loads: string -> Option<Value>, repr: seq<Message> -> string
  )
    requires llm(ExtractionPrompt(history, repr)).Some?
    requires var reply := llm(ExtractionPrompt(history, repr)).value;
      !IsSentinel(reply) && loads(reply).Some? && !loads(reply).value.Obj?
    ensures Chat(history, language, llm, loads, repr) == Err(Uncaught)
  {
  }

  // ---------------------------------------------------------------------
  // The knowledge base

  /** One file the directory listing found, with its text, or None when reading it failed. */
  datatype KbFile = KbFile(name: string, content: Option<string>)

  /** Both ways `get_all_knowledge_base_content` raises `FileNotFoundError`. */
  datatype KbFailure = NoFiles | NothingLoaded

  function Header(name: string): string {
    "\n\n=== KNOWLEDGE BASE FILE: " + name + " ===\n"
  }

  /** What a file adds to `combined_content`: its header and its text, or nothing when it failed. */
  function FilePieces(f: KbFile): seq<string> {
    match f.content
    case None => []
    case Some(text) => [Header(f.name), text]
  }

  /** The pieces of a run of files, in order. */
  function Pieces(files: seq<KbFile>): seq<string>
    decreases |files|
  {
    if files == [] then [] else Pieces(files[..|files| - 1]) + FilePieces(files[|files| - 1])
  }

  predicate AnyLoaded(files: seq<KbFile>) {
    exists j :: 0 <= j < |files| && files[j].content.Some?
  }

  /** The result of `get_all_knowledge_base_content` for the files the listing found. */
  function KnowledgeBase(files: seq<KbFile>): (r: Result<string, KbFailure>)
    ensures r.Err? <==> files == [] || !AnyLoaded(files)
    ensures r == Err(NoFiles) <==> files == []
  {
    PiecesEmpty(files);
    if files == [] then Err(NoFiles)
    else
      var pieces := Pieces(files);
      if pieces == [] then Err(NothingLoaded) else Ok(Join("\n", pieces))
  }

  /** `get_all_knowledge_base_content()`: the loop over the listed files. */
  method LoadKnowledgeBase(files: seq<KbFile>) returns (r: Result<string, KbFailure>)
    ensures r == KnowledgeBase(files)
  {
    if files == [] {
      return Err(NoFiles);
    }
    var combined: seq<string> := [];
    var i := 0;
    while i < |files|
      invariant 0 <= i <= |files|
      invariant combined == Pieces(files[..i])
    {
      assert files[..i + 1][..i] == files[..i];
      match files[i].content {
        case None =>
        case Some(text) =>
          combined := combined + [Header(files[i].name), text];
      }
      i := i + 1;
    }
    assert files[..i] == files;
    if combined == [] {
      return Err(NothingLoaded);
    }
    return Ok(Join("\n", combined));
  }

  lemma {:induction false} PiecesAppend(a: seq<KbFile>, b: seq<KbFile>)
    ensures Pieces(a + b) == Pieces(a) + Pieces(b)
    decreases |b|
  {
    if b == [] {
      assert a + b == a;
    } else {
      var last := b[|b| - 1];
      assert (a + b)[..|a + b| - 1] == a + b[..|b| - 1];
      PiecesAppend(a, b[..|b| - 1]);
    }
  }

  /** Pieces appear exactly for the files that loaded. */
  lemma {:induction false} PiecesEmpty(files: seq<KbFile>)
    ensures Pieces(files) == [] <==> !AnyLoaded(files)
    decreases |files|
  {
    if files != [] {
      var front := files[..|files| - 1];
      PiecesEmpty(front);
      if AnyLoaded(front) {
        var j :| 0 <= j < |front| && front[j].content.Some?;
        assert files[j].content.Some?;
      }
      if AnyLoaded(files) && files[|files| - 1].content.None? {
        var j :| 0 <= j < |files| && files[j].content.Some?;
        assert front[j].content.Some?;
      }
    }
  }

  /** A file that fails to read is skipped: it changes nothing but the listing. */
  lemma FailedFileSkipped(before: seq<KbFile>, name: string, after: seq<KbFile>)
    ensures Pieces(before + [KbFile(name, None)] + after) == Pieces(before + after)
  {
    var failed := [KbFile(name, None)];
    assert failed[..0] == [];
    assert Pieces(failed) == [];
    PiecesAppend(before + failed, after);
    PiecesAppend(before, failed);
    assert Pieces(before + failed) == Pieces(before);
    PiecesAppend(before, after);
  }

  lemma {:induction false} JoinContainsPair(sep: string, parts: seq<string>, j: nat)
    requires j + 1 < |parts|
    ensures Contains(Join(sep, parts), parts[j] + sep + parts[j + 1])
    decreases |parts|
  {
    var tail := Join(sep, parts[1..]);
    assert Join(sep, parts) == parts[0] + sep + tail;
    if j == 0 {
      if |parts| == 2 {
        assert tail == parts[1];
        ContainsStart(Join(sep, parts), "");
        assert Join(sep, parts) + "" == Join(sep, parts) == parts[0] + sep + parts[1];
      } else {
        var rest := Join(sep, parts[2..]);
        assert tail == parts[1] + sep + rest;
        ContainsPiece("", parts[0] + sep + parts[1], sep + rest);
        assert "" + (parts[0] + sep + parts[1]) + (sep + rest) == Join(sep, parts);
      }
    } else {
      JoinContainsPair(sep, parts[1..], j - 1);
      assert parts[1..][j - 1] == parts[j] && parts[1..][j] == parts[j + 1];
      ContainsExtended(tail, parts[j] + sep + parts[j + 1], parts[0] + sep);
      assert (parts[0] + sep) + tail == Join(sep, parts);
    }
  }

  /** Each file that loads shows up as its header, a line break and its text. */
  lemma LoadedFileIncluded(files: seq<KbFile>, j: nat)
    requires j < |files| && files[j].content.Some?
    ensures KnowledgeBase(files).Ok?
    ensures Contains(KnowledgeBase(files).value, Header(files[j].name) + "\n" + files[j].content.value)
  {
    PiecesEmpty(files);
    var before, after := files[..j], files[j + 1..];
    assert files == before + [files[j]] + after;
    PiecesAppend(before + [files[j]], after);
    PiecesAppend(before, [files[j]]);
    assert [files[j]][..0] == [];
    var m := |Pieces(before)|;
    var pieces := Pieces(files);
    assert pieces[m] == Header(files[j].name) && pieces[m + 1] == files[j].content.value;
    JoinContainsPair("\n", pieces, m);
  }

  /**
   * The files are combined in listing order: the knowledge base of a
   * listing is that of its front, a line break, and that of its back,
   * whenever both parts load something.
   */
  lemma KnowledgeBaseInOrder(front: seq<KbFile>, back: seq<KbFile>)
    requires AnyLoaded(front) && AnyLoaded(back)
    ensures KnowledgeBase(front + back).Ok?
    ensures KnowledgeBase(front + back).value == KnowledgeBase(front).value + "\n" + KnowledgeBase(back).value
  {
    PiecesEmpty(front);
    PiecesEmpty(back);
    PiecesEmpty(front + back);
    PiecesAppend(front, back);
    JoinAppend("\n", Pieces(front), Pieces(back));
  }

  // ---------------------------------------------------------------------
  // `/ask`

  /** The body of an `/ask` request. */
  datatype QaPayload = QaPayload(userInfo: UserInfo, history: seq<Message>, newMessage: string, language: string)

  const KbMissing: HttpError := HttpError(404,
    "Knowledge base files not found. "
    + "Please ensure the knowledge base files are available in the knowledge_base directory.")

  /** `ask(payload)`: the answer to the question prompt over the whole knowledge base. */
  function Ask(payload: QaPayload, files: seq<KbFile>, llm: seq<Message> -> Option<string>): (r: Result<string, HttpError>)
    ensures r.Err? ==> r.error == KbMissing || r.error == LlmFailure
  {
    match KnowledgeBase(files)
    case Err(_) => Err(KbMissing)
    case Ok(kb) =>
      match llm(QaPrompt(payload.userInfo, payload.history, payload.newMessage, kb, payload.language))
      case None => Err(LlmFailure)
      case Some(answer) => Ok(answer)
  }

  /**
   * A 404 exactly when the knowledge base is not found, a 500 exactly when
   * it loads and the model call fails, and otherwise the model's answer to
   * the question prompt built over the knowledge base.
   */
  lemma AskOutcomes(payload: QaPayload, files: seq<KbFile>, llm: seq<Message> -> Option<string>)
    ensures Ask(payload, files, llm) == Err(KbMissing) <==> files == [] || !AnyLoaded(files)
    ensures Ask(payload, files, llm).Err? && Ask(payload, files, llm).error.status == 500 <==>
      && KnowledgeBase(files).Ok?
      && llm(QaPrompt(payload.userInfo, payload.history, payload.newMessage, KnowledgeBase(files).value, payload.language)).None?
    ensures Ask(payload, files, llm).Ok? ==>
      && KnowledgeBase(files).Ok?
      && Ask(payload, files, llm).value
         == llm(QaPrompt(payload.userInfo, payload.history, payload.newMessage, KnowledgeBase(files).value, payload.language)).value
  {
  }
}
