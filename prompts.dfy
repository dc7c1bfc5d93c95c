/**
 * The prompt builders of the chatbot back end: each returns the list of
 * role-tagged messages sent to the language model.
 */
module Prompts {
  import opened Text
  import opened Profile

  datatype Role = User | System | Assistant

  /** `{"role": ..., "content": ...}`. */
  datatype Message = Message(role: Role, content: string)

  /** `s` begins with `p`. */
  predicate StartsWith(s: string, p: string) {
    |p| <= |s| && s[..|p|] == p
  }

  /** A join starts with its first part. */
  lemma JoinStartsWith(parts: seq<string>)
    requires parts != []
    ensures StartsWith(Join("", parts), parts[0])
  {
    if |parts| > 1 {
      assert Join("", parts) == parts[0] + "" + Join("", parts[1..]);
      assert (parts[0] + "" + Join("", parts[1..]))[..|parts[0]|] == parts[0];
    }
  }

  /** The language named in the instructions. */
  function LangInstruction(language: string): (r: string)
    ensures r == "Hebrew" <==> language == "he"
    ensures r == "English" <==> language != "he"
  {
    if language == "he" then "Hebrew" else "English"
  }

  // ---------------------------------------------------------------------
  // `info_collection_prompt`

  const CollectionRole: string :=
    "You are a friendly assistant for a health insurance provider. "
    + "Your goal is to collect user information in a natural, conversational way.\n"
  const CollectionPace: string := "- Ask for one piece of information at a time, or two related ones (e.g., first and last name).\n"
  const CollectionFields: string :=
    "- The required pieces of information are: first name, last name, 9-digit ID number, gender, age, "
    + "HMO name (must be one of: מכבי, מאוחדת, כללית), 9-digit HMO card number, "
    + "and insurance tier (must be one of: זהב, כסף, ארד).\n"

  const CollectionHead: string :=
    CollectionRole + CollectionPace + "- Be polite and friendly.\n" + CollectionFields
    + "- Keep the entire conversation in "

  /** One system message with the instructions, then the conversation unchanged. */
  function InfoCollectionPrompt(history: seq<Message>, language: string): (r: seq<Message>)
    ensures |r| == |history| + 1
    ensures r[0].role == System && r[1..] == history
    ensures Contains(r[0].content, LangInstruction(language))
  {
    var parts := [CollectionHead, LangInstruction(language), "."];
    JoinContainsParts("", parts, 1);
    [Message(System, Join("", parts))] + history
  }

  // ---------------------------------------------------------------------
  // `extraction_prompt`

  const ExtractionFields: string :=
    "The required fields are: `first_name`, `last_name`, `id_number` (9 digits), "
    + "`gender` ('male', 'female', or 'other'), `age` (0-120), `hmo` ('מכבי', 'מאוחדת', 'כללית'), "
    + "`card_number` (9 digits), and `tier` ('זהב', 'כסף', 'ארד').\n"

  const ExtractionInstructions: string :=
    "Review the following conversation and extract the user's information into a JSON object.\n"
    + ExtractionFields
    + "If any piece of information is missing, respond with the word \"None\"."

  /**
   * The instructions, then one user message carrying the conversation as
   * `repr` renders the list of message dictionaries.
   */
  function ExtractionPrompt(history: seq<Message>, repr: seq<Message> -> string): (r: seq<Message>)
    ensures |r| == 2
    ensures r[0].role == System && r[1].role == User
    ensures Contains(r[1].content, repr(history))
  {
    ContainsEnd("Here is the conversation history:\n\n", repr(history));
    [Message(System, ExtractionInstructions),
     Message(User, "Here is the conversation history:\n\n" + repr(history))]
  }

  // ---------------------------------------------------------------------
  // `info_confirmation_prompt`

  /** The fixed text around the fields of the summary, in one language. */
  datatype Labels = Labels(
    opening: string, name: string, id: string, age: string, gender: string,
    hmo: string, card: string, tier: string, closing: string)

  const HebrewOpening: string := "מעולה, תודה! " + "אנא הקדש/י רגע לאימות הפרטים שלך:\n\n"
  const EnglishOpening: string := "Great, thank you! " + "Please take a moment to confirm your details:\n\n"

  const HebrewLabels: Labels := Labels(
    HebrewOpening,
    "**שם מלא**: ",
    "\n**מספר ת.ז**: ",
    "\n**גיל**: ",
    "\n**מין**: ",
    "\n**קופת חולים**: ",
    "\n**מספר כרטיס קופה**: ",
    "\n**רובד ביטוחי**: ",
    "\n\n" + "האם כל המידע נכון? " + "אנא השב/השיבי 'כן' לאישור, או ציין/צייני את הפרטים שברצונך לשנות.")

  const EnglishLabels: Labels := Labels(
    EnglishOpening,
    "**Full Name**: ",
    "\n**ID Number**: ",
    "\n**Age**: ",
    "\n**Gender**: ",
    "\n**HMO**: ",
    "\n**HMO Card Number**: ",
    "\n**Insurance Tier**: ",
    "\n\n" + "Is all of this information correct? "
    + "Please reply with 'Yes' to confirm or provide the details you'd like to change.")

  /** The pieces of the summary: fixed text and the record's fields in turn. */
  function ConfirmationParts(u: UserInfo, labels: Labels): (parts: seq<string>)
    ensures |parts| == 18 && parts[0] == labels.opening
    ensures parts[2] == u.firstName && parts[4] == u.lastName && parts[6] == u.idNumber
    ensures parts[8] == IntToString(u.age) && parts[10] == u.gender && parts[12] == u.hmo
    ensures parts[14] == u.cardNumber && parts[16] == u.tier
  {
    var who := [labels.opening, labels.name, u.firstName, " ", u.lastName, labels.id, u.idNumber];
    var about := [labels.age, IntToString(u.age), labels.gender, u.gender, labels.hmo, u.hmo];
    var plan := [labels.card, u.cardNumber, labels.tier, u.tier, labels.closing];
    who + about + plan
  }

  /**
   * A single system message that reads the record back to the user: in
   * Hebrew exactly when the language is "he", and holding every field.
   */
  function InfoConfirmationPrompt(u: UserInfo, language: string): (r: seq<Message>)
    ensures |r| == 1 && r[0].role == System
    ensures language == "he" ==> StartsWith(r[0].content, HebrewOpening)
    ensures language != "he" ==> StartsWith(r[0].content, EnglishOpening)
    ensures Contains(r[0].content, u.firstName) && Contains(r[0].content, u.lastName)
    ensures Contains(r[0].content, u.idNumber) && Contains(r[0].content, IntToString(u.age))
    ensures Contains(r[0].content, u.gender) && Contains(r[0].content, u.hmo)
    ensures Contains(r[0].content, u.cardNumber) && Contains(r[0].content, u.tier)
  {
    var parts := ConfirmationParts(u, if language == "he" then HebrewLabels else EnglishLabels);
    var text := Join("", parts);
    JoinStartsWith(parts);
    JoinContainsParts("", parts, 2);
    JoinContainsParts("", parts, 4);
    JoinContainsParts("", parts, 6);
    JoinContainsParts("", parts, 8);
    JoinContainsParts("", parts, 10);
    JoinContainsParts("", parts, 12);
    JoinContainsParts("", parts, 14);
    JoinContainsParts("", parts, 16);
    [Message(System, text)]
  }

  /** The two openings differ in their first letter, so the language of a summary shows at its start. */
  lemma OpeningsDiffer(s: string)
    ensures !(StartsWith(s, HebrewOpening) && StartsWith(s, EnglishOpening))
  {
    if StartsWith(s, HebrewOpening) {
      assert HebrewOpening[0] == 'מ';
      assert EnglishOpening[0] == 'G';
      assert s[0] == HebrewOpening[0];
    }
  }

  /** The language of the summary follows the language argument, in both directions. */
  lemma ConfirmationLanguage(u: UserInfo, language: string)
    ensures language == "he" <==> StartsWith(InfoConfirmationPrompt(u, language)[0].content, HebrewOpening)
    ensures language != "he" <==> StartsWith(InfoConfirmationPrompt(u, language)[0].content, EnglishOpening)
  {
    OpeningsDiffer(InfoConfirmationPrompt(u, language)[0].content);
  }

  // ---------------------------------------------------------------------
  // `qa_prompt`

  /** The knowledge base between its two markers. */
  function KnowledgeBlock(kb: string): string {
    "--- KNOWLEDGE BASE START ---\n" + kb + "\n--- KNOWLEDGE BASE END ---"
  }

  const QaScope: string := ", based *only* on the information provided in the HTML knowledge base below. "
  const QaFallback: string := "If the answer is not in the knowledge base, state that you do not have that information.\n\n"

  function QaInstructions(u: UserInfo, kb: string, language: string): (text: string)
    ensures Contains(text, u.hmo) && Contains(text, u.tier)
    ensures Contains(text, LangInstruction(language)) && Contains(text, KnowledgeBlock(kb))
  {
    var parts := [
      "You are a helpful assistant for members of ", u.hmo, ". ",
      "The user's current insurance tier is: ", u.tier, ". ",
      "Answer the user's questions in ", LangInstruction(language),
      QaScope,
      QaFallback,
      KnowledgeBlock(kb)];
    JoinContainsParts("", parts, 1);
    JoinContainsParts("", parts, 4);
    JoinContainsParts("", parts, 7);
    JoinContainsParts("", parts, 10);
    Join("", parts)
  }

  /**
   * The instructions with the member's HMO, tier and the knowledge base,
   * then each earlier message by role and content, then the new question.
   */
  function QaPrompt(u: UserInfo, history: seq<Message>, question: string, kb: string, language: string): (r: seq<Message>)
    ensures |r| == |history| + 2
    ensures r[0].role == System
    ensures r[1..|history| + 1] == history
    ensures r[|history| + 1] == Message(User, question)
    ensures Contains(r[0].content, u.hmo) && Contains(r[0].content, u.tier)
    ensures Contains(r[0].content, KnowledgeBlock(kb)) && Contains(r[0].content, kb)
    ensures Contains(r[0].content, LangInstruction(language))
  {
    var text := QaInstructions(u, kb, language);
    ContainsPiece("--- KNOWLEDGE BASE START ---\n", kb, "\n--- KNOWLEDGE BASE END ---");
    ContainsTransitive(text, KnowledgeBlock(kb), kb);
    var copied := seq(|history|, j requires 0 <= j < |history| => Message(history[j].role, history[j].content));
    assert copied == history;
    [Message(System, text)] + copied + [Message(User, question)]
  }
}
