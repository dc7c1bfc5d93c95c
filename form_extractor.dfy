/**
 * The decisions of the form extractor around its foreign calls: the
 * language guess on the OCR text, the request sent to the language model,
 * the clean-up of its reply and the fall-back to the blank template when
 * the reply is not JSON.
 */
module FormExtractor {
  import opened Wrappers
  import opened Json
  import opened Text
  import opened FormSchema
  import opened FormPaths
  import opened FormValidator

  // ---------------------------------------------------------------------
  // Language detection

  /** "שם" ("name"), the token whose presence marks a Hebrew form. */
  const NameToken: string := "שם"

  /** `"he" if any("שם" in line for line in ocr_text.splitlines()) else "en"`. */
  function DetectLanguage(ocr: string): (r: string)
    ensures r == "he" || r == "en"
  {
    if exists line :: line in SplitLines(ocr) && Contains(line, NameToken) then "he" else "en"
  }

  /** Looking line by line finds the token exactly when the whole text holds it. */
  lemma DetectLanguageByText(ocr: string)
    ensures DetectLanguage(ocr) == "he" <==> Contains(ocr, NameToken)
    ensures DetectLanguage(ocr) == "en" <==> !Contains(ocr, NameToken)
  {
    if Contains(ocr, NameToken) {
      assert NoLineBreak(NameToken);
      TextContainsInLine(ocr, NameToken);
    }
    if exists line :: line in SplitLines(ocr) && Contains(line, NameToken) {
      var line :| line in SplitLines(ocr) && Contains(line, NameToken);
      LineContainsInText(ocr, NameToken, line);
    }
  }

  // ---------------------------------------------------------------------
  // The reply clean-up

  const Backtick: set<char> := {'`'}
  const JsonLetters: set<char> := {'j', 's', 'o', 'n'}

  /**
   * `content.strip("```").strip("json")`: both calls strip a character
   * set, so what is left is a piece of the reply that neither starts nor
   * ends with one of the letters of "json", and all that is cut away
   * around it is backticks and those letters.
   */
  function StripFence(reply: string): (r: string)
    ensures Contains(reply, r)
    ensures exists i :: CutFrom(reply, r, i, Backtick + JsonLetters)
    ensures r != [] ==> r[0] !in JsonLetters && r[|r| - 1] !in JsonLetters
  {
    var unfenced := StripChars(reply, Backtick);
    var r := StripChars(unfenced, JsonLetters);
    ContainsTransitive(reply, unfenced, r);
    var i :| 0 <= i <= |reply| - |unfenced| && CutFrom(reply, unfenced, i, Backtick);
    var j :| 0 <= j <= |unfenced| - |r| && CutFrom(unfenced, r, j, JsonLetters);
    CutCompose(reply, unfenced, r, i, j, Backtick, JsonLetters);
    r
  }

  // ---------------------------------------------------------------------
  // `extract_fields`

  /** Why no data came back: the completion call failed. */
  datatype ExtractFault = CompletionFailed

  /** The single user message sent to the model; `schemaJson` is `json.dumps` of the template. */
  function ExtractionRequest(ocr: string, schemaJson: string): string {
    RequestHead + schemaJson + "\n\nForm Text:\n" + ocr
  }

  const RequestHead: string :=
    "Extract the following fields from the given form text. "
    + "Return only JSON with keys exactly as in the schema. "
    + "Use empty string for missing fields.\nSchema: "

  /** The request carries both the form's text and the template it is to fill. */
  lemma ExtractionRequestCarries(ocr: string, schemaJson: string)
    ensures Contains(ExtractionRequest(ocr, schemaJson), ocr)
    ensures Contains(ExtractionRequest(ocr, schemaJson), schemaJson)
  {
    var front := RequestHead + schemaJson + "\n\nForm Text:\n";
    ContainsEnd(front, ocr);
    ContainsEnd(RequestHead, schemaJson);
    ContainsExtended(RequestHead + schemaJson, schemaJson, "\n\nForm Text:\n");
    ContainsExtended(front, schemaJson, ocr);
  }

  /**
   * `extract_fields(client, ocr_text, language)`: `dumps` is `json.dumps`,
   * `complete` the chat completion (None when it fails) and `loads` is
   * `json.loads` (None on a decode error).
   */
  function ExtractFields(
    ocr: string, language: string,
    dumps: Value -> string, complete: string -> Option<string>, loads: string -> Option<Value>
  ): (r: Result<Value, ExtractFault>)
    ensures r.Err? <==> complete(ExtractionRequest(ocr, dumps(GetSchema(language)))).None?
    ensures complete(ExtractionRequest(ocr, dumps(GetSchema(language)))).Some? ==>
      var data := loads(StripFence(complete(ExtractionRequest(ocr, dumps(GetSchema(language)))).value));
      && (data.Some? ==> r == Ok(data.value))
      && (data.None? ==> r == Ok(GetSchema(language)))
  {
    var schema := GetSchema(language);
    match complete(ExtractionRequest(ocr, dumps(schema)))
    case None => Err(CompletionFailed)
    case Some(reply) =>
      match loads(StripFence(reply))
      case None => Ok(schema)
      case Some(data) => Ok(data)
  }

  /**
   * A reply that does not decode gives back the blank template of the
   * language, and validating that reports every one of its 35 leaves.
   */
  lemma UndecodableReplyReportsAll(
    ocr: string, language: string,
    dumps: Value -> string, complete: string -> Option<string>, loads: string -> Option<Value>
  )
    requires complete(ExtractionRequest(ocr, dumps(GetSchema(language)))).Some?
    requires loads(StripFence(complete(ExtractionRequest(ocr, dumps(GetSchema(language)))).value)) == None
    ensures ExtractFields(ocr, language, dumps, complete, loads) == Ok(GetSchema(language))
    ensures Walk(GetSchema(language), 0, ExtractFields(ocr, language, dumps, complete, loads).value, "")
         == Ok(AllDotted(Leaves(GetSchema(language), 0), ""))
    ensures |AllDotted(Leaves(GetSchema(language), 0), "")| == 35
  {
    BlankFormReportsAll(language);
  }
}
