# National-insurance form extractor and HMO chatbot, modelled in Dafny

The repository has two applications. This project models the decisions they
make. It leaves out the I/O around those decisions.

- **Form extractor** (phase 1). It OCRs a scanned form. It guesses the form's
  language from the text. It asks a language model to fill a fixed JSON
  template, cleans the reply and decodes it. If the reply does not decode, it
  falls back to the blank template. It then lists the dotted paths of the
  template leaves that came back absent or empty.
- **HMO chatbot** (phase 2). It has a FastAPI back end and a Streamlit page.
  - The back end's `/chat` turns the conversation into a `UserInfo` record, or
    keeps collecting.
  - `/ask` answers questions over a knowledge base assembled from HTML files.
  - The page keeps a session that moves from `collecting` through `confirming`
    to `qa`.

Modules:

- `Json` (`json.dfy`): decoded JSON values and Python dictionaries. A
  dictionary is an ordered list of entries, because `dict.items()` order
  decides the validator's output order. The module also has `.get` and Python
  truthiness.
- `Text` (`text.dfy`): the Python string operations the code uses:
  - `in`, `str.strip` with and without a character set, ASCII `lower`;
  - `splitlines`, `join`, `str(int)`.
- `FormSchema`, `FormPaths`, `FormValidator`, `FormExtractor`: `get_schema`,
  the dotted leaf paths, `validate_data` with its inner `recurse`, and the
  pure parts of `extract_fields` and `main`.
  - `validate_data` is a method with a loop (`Recurse`).
  - It is proved equal to a specification function (`Walk`).
  - `Walk` is proved against an independent reference (`Reported`), which
    resolves each leaf's key path in the data.
- `Profile`: the `UserInfo` constraints and `UserInfo(**obj)` / `.dict()`.
- `Prompts`: the four prompt builders.
- `Backend`: the `/chat` decision, the knowledge-base loader (a method with a
  loop, proved against a function), and the `/ask` error mapping.
- `Frontend`: the Streamlit session as a class. Each event handler is a
  method. Each method takes the back end as a function from the request it
  posts to the reply it reads.

The language model, `json.loads`, `json.dumps`, the Python `repr` of the
history and the knowledge-base files are all parameters.

## Model

| member | source | states |
|---|---|---|
| FormSchema.SchemaLanguage | phase1_solution/form_extractor_app.py:84-128 | The Hebrew template is returned exactly when the language is "he". Every other string, unknown ones included, gets the English template. |
| FormSchema.GetSchema | phase1_solution/form_extractor_app.py:84-128 | Whatever the language, the template is a dictionary of 19 top-level entries. |
| FormSchema.SchemaShape | phase1_solution/form_extractor_app.py:86-127 | Both templates have 19 top-level keys and 35 leaves. Every leaf is the empty string. Keys are unique, non-empty and free of '.', at every level. |
| FormValidator.Recurse | phase1_solution/form_extractor_app.py:133-140 | The loop appends to `missing` exactly what the walk of the template collects, or stops with the fault of calling `.get` on a non-dictionary. |
| FormValidator.ValidateData | phase1_solution/form_extractor_app.py:131-142 | `validate_data(data, language)` starts from an empty list, walks the language's template from the root, and returns what the walk collects. |
| FormValidator.WalkCompletes | phase1_solution/form_extractor_app.py:133-140 | The walk (`Walk`, the specification of `recurse`) completes exactly when the data fits the template: at every level the walk reaches, the data is a dictionary, and every non-empty group of the template resolves, in the data, to a dictionary (an absent group counting as `{}`). |
| FormValidator.PresentNonMappingGroupFails | phase1_solution/form_extractor_app.py:136-137 | A non-empty group whose value in the data is present but not a dictionary (`""`, `null`, a number, a list) makes the walk fail. |
| FormValidator.WalkReportsFalsyLeaves | phase1_solution/form_extractor_app.py:133-140 | When the walk completes, it reports, in depth-first template order, exactly the leaves whose value (a missing group read as `{}`) is absent or falsy. Keys the template lacks play no part. |
| FormValidator.ValidationReport | phase1_solution/form_extractor_app.py:131-142 | The result is a subsequence of the template's dotted leaf paths, in template order. No path appears twice. A leaf is listed exactly when its value is absent or falsy. |
| FormValidator.EmptyDataReportsAll | phase1_solution/form_extractor_app.py:137 | An absent group counts as an empty dictionary, so all of its leaves are reported. |
| FormValidator.BlankFormReportsAll | phase1_solution/form_extractor_app.py:131-142 | Validating a language's blank template against itself reports all 35 leaf paths: the blank form is never complete. |
| FormValidator.NonMappingDataFails | phase1_solution/form_extractor_app.py:137-139 | Data that is not a dictionary stops the walk at the root with the fault at the empty path, before anything is reported. Faults deeper down are covered by `WalkCompletes` and `PresentNonMappingGroupFails`. |
| FormPaths.LeafPathsDistinct | phase1_solution/form_extractor_app.py:135 | In a template whose keys are unique, non-empty and dot-free, no two leaves share a dotted path. |
| FormPaths.DottedInjective | phase1_solution/form_extractor_app.py:135 | Two key paths of such keys with the same `parent.child` name are the same key path. |
| FormExtractor.DetectLanguageByText | phase1_solution/form_extractor_app.py:158 | The detected language is "he" exactly when some line of the OCR text contains "שם", and that holds exactly when the whole text contains it. Otherwise it is "en". |
| FormExtractor.DetectLanguage | phase1_solution/form_extractor_app.py:158 | The detected language is always "he" or "en". |
| FormExtractor.ExtractFields | phase1_solution/form_extractor_app.py:61-81 | The call fails exactly when the model call fails. When it answers, a cleaned reply that decodes is returned as decoded, and one that does not decode gives the blank template of the language. |
| FormExtractor.StripFence | phase1_solution/form_extractor_app.py:74 | The cleaned reply is a contiguous piece of the reply. Everything cut from either end is a backtick or one of 'j', 's', 'o', 'n', and the piece neither starts nor ends with one of those letters. |
| Text.StripChars | phase1_solution/form_extractor_app.py:74 | `s.strip(chars)` is a piece of `s`. Everything cut from either end is in the set, and the piece starts and ends outside it. |
| FormExtractor.ExtractionRequestCarries | phase1_solution/form_extractor_app.py:67 | The request to the model contains both the serialised template and the OCR text. |
| FormExtractor.UndecodableReplyReportsAll | phase1_solution/form_extractor_app.py:75-81 | When the cleaned reply does not decode, `extract_fields` returns the language's blank template, and validating it reports all 35 leaves. |
| Profile.FromJson | phase2_solution/backend/app.py:40-48 | A record comes back only if all eight keys are present with the right types and it meets the constraints. These are: two 9-digit strings, an age in [0,120], and gender, HMO and tier from their three-value sets. Each field is the value stored under its key. |
| Profile.FromJsonAccepts | phase2_solution/backend/app.py:40-48 | Conversely, an object with all eight fields well typed is accepted exactly when the record it spells meets the constraints. |
| Profile.RoundTrip | phase2_solution/backend/app.py:40-48 | A record written out with `.dict()` and read back is the same record exactly when it meets the constraints. |
| Profile.ToJson | phase2_solution/backend/app.py:127 | `.dict()` writes an object with exactly the eight declared keys, in declaration order, each holding its field: the seven texts as strings and the age as an integer. |
| Profile.ExtraKeysIgnored | phase2_solution/backend/app.py:123 | Entries under names `UserInfo` does not declare do not change the outcome. |
| Prompts.LangInstruction | phase2_solution/backend/prompts.py:6 | The instruction language is "Hebrew" exactly when the language is "he", and "English" otherwise. |
| Prompts.InfoCollectionPrompt | phase2_solution/backend/prompts.py:5-16 | One system message naming the instruction language, followed by the history unchanged, so the length is the history's plus one. |
| Prompts.ExtractionPrompt | phase2_solution/backend/prompts.py:18-27 | Exactly two messages: the system instructions, then a user message containing the rendered history. |
| Prompts.InfoConfirmationPrompt | phase2_solution/backend/prompts.py:29-54 | A single system message. It opens with the Hebrew greeting for "he" and the English one otherwise. It contains the first and last name, ID, age in decimal, gender, HMO, card number and tier. |
| Prompts.ConfirmationLanguage | phase2_solution/backend/prompts.py:30-54 | The summary opens with the Hebrew greeting exactly when the language is "he", and with the English one exactly when it is not. |
| Prompts.QaPrompt | phase2_solution/backend/prompts.py:56-70 | History length plus two messages: a system message, then the history by role and content in order, then the new question as a user message. The system text contains the HMO, the tier, the instruction language, and the whole knowledge base between its START and END markers. |
| Text.IntToString | phase2_solution/backend/prompts.py:35 | `str(age)` is a string of decimal digits, with a '-' in front for a negative number, denoting the number, with no leading zero ("0" alone for zero). |
| Backend.Extract | phase2_solution/backend/app.py:121-123 | A record results exactly when the reply is not a sentinel, decodes to an object and `UserInfo` accepts that object. A reply that is not a sentinel and decodes to something other than an object is a separate outcome. |
| Backend.SentinelIgnoresPadding | phase2_solution/backend/app.py:122 | Whitespace around the extraction reply does not change whether it is a sentinel. |
| Backend.IsSentinel | phase2_solution/backend/app.py:122 | A reply is a sentinel exactly when it is "none", "null" or "{}", with ASCII letters in any case, and nothing but Python whitespace around it. |
| Backend.ChatShape | phase2_solution/backend/app.py:114-133 | A reply carries a record exactly when its phase is `confirming`, and that record meets the constraints. Every failure is a 500. |
| Backend.Chat | phase2_solution/backend/app.py:114-133 | `/chat` fails only with the model-call 500 or the uncaught-exception 500. |
| Backend.ChatFails | phase2_solution/backend/app.py:114-133 | `/chat` answers the model-call 500 exactly when the extraction call fails, or the confirmation call fails for a complete record, or the collection call fails otherwise. The confirmation failure is not caught and does not fall back to collecting. It answers the plain 500 of an uncaught exception exactly when the extraction reply decodes to a non-object. |
| Backend.ChatConfirms | phase2_solution/backend/app.py:122-127 | `confirming` comes back exactly when the reply decodes to an object that `UserInfo` accepts and the confirmation call answers. |
| Backend.ChatConfirmsRecord | phase2_solution/backend/app.py:124-127 | A `confirming` answer returns the record built from the decoded object. Its text is the model's answer to the confirmation prompt for that record. |
| Backend.ChatCollects | phase2_solution/backend/app.py:129-133 | A sentinel, a decode error or a record `UserInfo` refuses leads to the collection prompt's answer, with phase `collecting` and no record. |
| Backend.ChatRejectsNonObject | phase2_solution/backend/app.py:123 | A reply that decodes to a non-object escapes the handler as a plain 500, not as `collecting`. |
| Backend.LoadKnowledgeBase | phase2_solution/backend/app.py:76-111 | The loop returns what the knowledge-base function gives for the listed files. |
| Backend.KnowledgeBase | phase2_solution/backend/app.py:76-111 | The result is not-found exactly when the listing is empty or no file could be read, and "no files" exactly when the listing is empty. |
| Backend.FailedFileSkipped | phase2_solution/backend/app.py:91-105 | A file that fails to read adds nothing, wherever it sits in the listing. |
| Backend.LoadedFileIncluded | phase2_solution/backend/app.py:91-111 | Every file that loads appears in the result as its `=== KNOWLEDGE BASE FILE: name ===` header, a line break and its text. |
| Backend.KnowledgeBaseInOrder | phase2_solution/backend/app.py:91-111 | Files are combined in listing order: when both parts of a listing load something, its knowledge base is the front's, a line break, then the back's. |
| Backend.AskOutcomes | phase2_solution/backend/app.py:135-160 | The result is a 404 exactly when the knowledge base is not found. It is a 500 exactly when the knowledge base loads but the model call fails. Otherwise it is the model's answer to the question prompt over the whole knowledge base. |
| Backend.Ask | phase2_solution/backend/app.py:135-160 | `/ask` fails only with the not-found 404 or the model-call 500. |
| Frontend.BackendRepliesWellFormed | phase2_solution/backend/app.py:127-133 | Every `/chat` reply whose phase is `confirming` carries a record. |
| Frontend.Session.constructor | phase2_solution/frontend/streamlit_app.py:37-66 | First run: the chosen language, an empty history, `collecting`, no record, nothing pending, no welcome. |
| Frontend.Session.SelectLanguage | phase2_solution/frontend/streamlit_app.py:37-43 | A new language clears the history, returns to `collecting` and drops both records. The same language changes nothing. `show_welcome` is never touched. |
| Frontend.Session.ConfirmYes | phase2_solution/frontend/streamlit_app.py:83-89 | The pending record becomes the confirmed one, the phase becomes `qa` and the welcome shows. Exactly two messages are appended, user then assistant. |
| Frontend.Session.ConfirmNo | phase2_solution/frontend/streamlit_app.py:91-98 | The phase becomes `collecting` and the pending record is dropped, whatever the reply says. The correction is appended, then the reply if one arrives. |
| Frontend.Session.ChatInput | phase2_solution/frontend/streamlit_app.py:100-117 | The message is appended and posted with the whole history. A reply is appended. Only a `confirming` reply moves the phase and sets the pending record to the returned one. A failure leaves the message appended and nothing else changed. |
| Frontend.Session.QaInput | phase2_solution/frontend/streamlit_app.py:119-146 | The welcome is hidden and the question appended. `/ask` receives the history as it was before the question. The phase and both records never change. In a consistent session the request carries the confirmed record, which `/ask` requires. |

## Left out

- OCR, client construction, environment checks, logging, Streamlit rendering (markup, RTL styles, spinners, the welcome banner, `st.rerun`) and the HTTP transport are not modelled. They are I/O.
- The language model, `json.loads`, `json.dumps` and Python's `repr` of the history are parameters. The model's settings (model name, token limit, temperature, JSON mode) are not modelled.
- A model reply whose content is `None` is not modelled. The model is a function that answers with a string or fails. This affects:
  - `extract_fields`, where `None` would reach the fence stripping;
  - Backend.Chat: a `None` extraction reply raises at `.strip()` and escapes as a plain 500; a `None` collection or confirmation reply is returned as `assistant: null`;
  - Backend.Ask: a `None` answer is returned as `assistant: null`.
- JSON values have no floating-point numbers.
- `Json.Lookup`: a decoded dictionary is assumed to hold each key once. Duplicate keys in the model's reply, which `json.loads` resolves to the last one, are not modelled.
- Profile.FromJson: does not model pydantic's lax coercion (`"30"` or `30.0` accepted as age 30, `true` as 1). Fields are accepted only with their exact JSON type.
- Profile.FromJson: `\d` is read as the ASCII digits 0-9. The Unicode decimal digits that the regular-expression engine also accepts are not modelled.
- Text.Lower: lower-cases ASCII letters only. For the sentinel test this is exact, because no other character lower-cases to a letter of "none"/"null" or to a brace.
- Backend.Chat: a failed model call is always answered with the "Failed to get response from LLM." detail. The separate "client is not configured" detail is not modelled.
- Backend.Ask: the 500 for an unexpected exception from the knowledge-base loader is not modelled. The loader catches every read error itself, so with the file listing as input no such exception arises.
- Backend.Ask: the payload is taken as already validated. FastAPI's 422 rejection of a malformed request body is not modelled.
- The knowledge-base listing is taken in the order given. `glob`'s file order depends on the file system.
- The page's events are separate method calls, one per run of the script. The handlers read a back-end reply that lacks its `assistant` key as a failure.

Where the code and the design disagree, the model follows the code:

- The validator checks nothing but presence and truthiness. A malformed but non-empty value (an 8-digit ID, say) is not reported.
- A model reply that decodes to a list, number or string is neither a parse failure nor `collecting`: it escapes `/chat` as a 500.
- `/chat` makes two model calls per turn: extraction, then collection or confirmation.
- A failed chat request leaves the user's message in the history. "No" on the confirmation changes the phase and drops the pending record before its request is sent.
- After "no", the page stays in `collecting` even when the reply says `confirming`.
- Changing the language does not reset `show_welcome`.
- The confirmation summary lists eight values: both names, ID, age, gender, HMO, card number and tier.
