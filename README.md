# Health-assistant chat: a Dafny model

This project models two pieces of the AI health-assistant web application.

- **The chat backend** (`app.py`), in `chat_server.dfy`, module `ChatServer`. A process-wide table `conversations` maps a session id to the messages of that conversation. The `/chat` route works on one session:
  - if the session is new, it creates it with one `system` message, whose prompt is personalised from the request's patient data;
  - it appends the user's message;
  - it sends the whole list to the completion service;
  - on success it appends the reply, and trims the list to its first message plus the last 18 once it holds more than 20;
  - on failure it replies `Error: <text>`.

  The `/new-chat` route forgets a session. `ChatService` is a class whose `conversations` field its methods update in place, as the source does. Each route is tied to a pure specification: `Turn` for `/chat`, `Reset` for `/new-chat`, and `Replay` for a sequence of requests. The lemmas state what the routes promise.
- **The reply formatter** (`script.js`, `formatAIMessage` and `escapeHtml`), in `message_format.dfy`, module `MessageFormat`. It is a chain of pure functions:
  - HTML escaping, as in the "escaping a string" step of the HTML fragment serialisation algorithm (HTML Living Standard, section 13.3) in text-node mode;
  - `\n` → `<br>`;
  - a line-initial `- ` and then `* ` → `• `;
  - a line-initial `digits.` → `<strong>digits.</strong>`.

  The `/gm` regular expressions are modelled by a scan that tracks whether the current position is an ECMAScript multiline line start: the beginning of the string, or just after LF, CR, U+2028 or U+2029.

The completion service is not modelled. Each turn receives its outcome as a parameter of type `Completion`: `Completed(reply)` or `Failed(description)`, where the description is the text of the raised exception.

The chat routes in `app.py` keep an in-memory table and trim only after a successful turn, to the first message plus the last 18. A failed turn is never trimmed.

## Model

| member | source | states |
|---|---|---|
| ChatServer.ChatService.constructor | app.py:20 | The server starts with an empty conversation table, which is well formed. |
| ChatServer.ChatService.Chat | app.py:22-104 | A missing `session_id` becomes `"default"` and a missing message becomes `""`. The new table, the reply and the list sent to the completion are exactly those of `Turn`, with the prompt built from the request's patient data. Every history keeps exactly one system message, and keeps it first. |
| ChatServer.ChatService.Converse | app.py:30-99 | For a new session it stores one system message, then appends the user message in place. The result matches `Turn` and the table stays well formed. |
| ChatServer.ChatService.Respond | app.py:88-99 | On success the reply is returned unchanged, appended and then trimmed. On failure the reply is `Error: <description>` and the list is left as it is. No other session changes. |
| ChatServer.ChatService.NewChat | app.py:106-113 | The session is removed if present and the table is unchanged otherwise. The status `"New chat started"` and the session id are returned either way, with `"default"` for a missing id. |
| ChatServer.Trim | app.py:94-96 | A list of at most 20 is unchanged. A longer one becomes its first element followed by its last 18, in order, so its length is 19. The first and last elements are kept either way. |
| ChatServer.Reset | app.py:110-112 | The session is absent afterwards and every other session keeps its entry. If it was absent before, the table is unchanged. |
| ChatServer.SystemPrompt | app.py:32-69 | The f-string prompt: the opening line, then the patient block only for non-empty data, then the instructions and the example conversation. It has no contract of its own. Its properties are stated by the four prompt lemmas below. |
| ChatServer.PatientBlockIffData | app.py:32-47 | The patient-information header follows the opening line of the system prompt if and only if the patient data is non-empty. |
| ChatServer.PromptWithoutData | app.py:32-69 | Without patient data the prompt is the fixed text alone, and the example reply contains no name. |
| ChatServer.PromptShowsPatientFields | app.py:34-41 | With patient data the prompt contains each field line with its value. The defaults are `''` for first and last name, `Unknown` for age and sex, `Not provided` for address and contact, and `None provided` for medical history. |
| ChatServer.PromptNamesPatient | app.py:43-66 | With patient data, the greeting rule names `(<firstName>)`, or `(Patient)` when there is no first name. The example reply reads `...have a fever, <firstName>`. |
| ChatServer.Answered | app.py:88-99 | The stored list after the completion. On success it is the sent list plus the assistant reply, trimmed. On failure it is the sent list. It has no contract of its own. Its properties are stated by `TurnOnSuccess` and `TurnOnFailure`. |
| ChatServer.ReplyText | app.py:88-99 | The `reply` field: the completion's text, or `Error: ` and the exception text. It has no contract of its own. Its properties are stated by `TurnOnSuccess` and `TurnOnFailure`. |
| ChatServer.Turn | app.py:30-99 | One `/chat` call as a function of the table. It builds the sent list from the stored history, or from a fresh system message, plus the user message. It stores `Answered` and returns `ReplyText`. It has no contract of its own. `ChatService.Chat` is proved equal to it, and its properties are the Turn lemmas below. |
| ChatServer.TurnSendsWholeHistory | app.py:76-82 | The list sent to the completion ends with the new user message. Before it comes the whole stored history of an existing session, or the single system message of a new one. |
| ChatServer.KnownSessionIgnoresPrompt | app.py:30-73 | For a session that exists, the patient data of the request has no effect. |
| ChatServer.TurnFramesOtherSessions | app.py:71-96 | A turn adds its own session to the table if needed and leaves every other entry unchanged. |
| ChatServer.TurnOnSuccess | app.py:88-96 | On success the reply is returned unchanged and stored last. The first message is kept. The stored list has at most 20 entries: the sent list plus the reply, or the first message followed by the last 18 of those. |
| ChatServer.TurnOnFailure | app.py:98-99 | On failure the reply is `Error: ` followed by the description. The stored list is the sent list, one longer than before and ending with the user message. |
| ChatServer.TrimWellFormed | app.py:94-96 | Trimming keeps a history well formed: the system message first and no other system message. |
| ChatServer.TurnPreservesWellFormed | app.py:71-96 | A turn keeps every session's history well formed. |
| ChatServer.ResetThenTurnIsFresh | app.py:106-113 | After `/new-chat`, the next `/chat` on that id behaves as on a session never seen: it starts again from the system prompt of the new request. |
| ChatServer.Step | app.py:22-113 | One request to either route, as a function of the table. A `session_id` that is absent becomes `"default"`, and a `message` that is absent becomes `""`. A chat request is a `Turn` with the prompt built from its patient data, and a new-chat request is a `Reset`. It has no contract of its own. |
| ChatServer.Replay | app.py:22-113 | The table after a sequence of requests, handled one at a time in order. It has no contract of its own. Its properties are stated by the Replay lemmas below. |
| ChatServer.ReplayPreservesWellFormed | app.py:22-113 | Any sequence of requests keeps every history well formed. |
| ChatServer.ReplayLeavesOtherSessions | app.py:22-113 | Requests for other session ids neither create nor change a session's entry. |
| ChatServer.ReplayKeepsSystemMessage | app.py:71-96 | Until a `/new-chat` on it, a session keeps the first message it was created with, whatever the other requests are. |
| ChatServer.FailedTurnsGrowHistory | app.py:76-99 | A run of failed turns adds exactly one message per turn and keeps the earlier history as a prefix. A failed turn is never trimmed, so a history can grow past 20. |
| MessageFormat.EscapeChar | script.js:121-125 | `&`, U+00A0, `<` and `>` become entity references. Every other character is kept as it is. |
| MessageFormat.EscapeHtml | script.js:121-125 | The result is never shorter than the input. It equals the input if and only if no character needed escaping. It contains no raw `<`, `>` or U+00A0. If LF is the input's only line terminator, it is also the output's only one. |
| MessageFormat.UnescapeEscape | script.js:121-125 | Escaping loses nothing: decoding the four entity references gives back the input. |
| MessageFormat.EscapeSafe | script.js:105 | Escaped text is safe markup: no `<`, `>` or `&` outside an entity reference. |
| MessageFormat.NewlinesToBreaks | script.js:108 | The global replacement of every LF by `<br>`, scanning left to right. It has no contract of its own. Its properties are stated by `BreaksRemoveNewlines`, `BreaksLeaveOneLine` and `BreaksSafe`. |
| MessageFormat.BreaksRemoveNewlines | script.js:108 | No LF is left after `\n` → `<br>`, and text without an LF is unchanged. |
| MessageFormat.BreaksLeaveOneLine | script.js:108 | If LF is the only line terminator in the input, the result contains none. |
| MessageFormat.BreaksSafe | script.js:108 | Replacing LF by `<br>` keeps markup safe. |
| MessageFormat.ReplaceAtLineStarts | script.js:111-112 | A `/^pattern/gm` replacement. Wherever `pattern` starts at a multiline line start, it is replaced by `replacement`, and scanning resumes after the match. It has no contract of its own. Its properties are stated by `ReplaceOnOneLine`, `ReplaceKeepsNoNewline` and `ReplaceSafe`. |
| MessageFormat.ReplaceOnOneLine | script.js:111-112 | On text with no line terminator, the `^pattern` replacement acts at the very start only, and the rest of the text is unchanged. |
| MessageFormat.ReplaceKeepsNoNewline | script.js:111-112 | The bullet replacements introduce no LF. |
| MessageFormat.ReplaceSafe | script.js:111-112 | The bullet replacements preserve safe markup: on safe input, the output again consists only of plain characters, `<br>`, `<strong>`, `</strong>` and the four entity references. |
| MessageFormat.LeadingDigits | script.js:115 | It returns the longest run of ASCII digits at the start of the text, which is what the greedy `\d+` matches. |
| MessageFormat.BoldNumbersAtLineStarts | script.js:115 | The `/^(\d+)\./gm` replacement. At each multiline line start where the longest digit run is followed by `.`, the digits and the full stop are wrapped in `<strong>`. It has no contract of its own. Its properties are stated by `BoldOnOneLine`, `BoldKeepsNoNewline` and `BoldSafe`. |
| MessageFormat.BoldOnOneLine | script.js:115 | On text with no line terminator, only a number and full stop at the very start is wrapped in `<strong>`, and the rest is unchanged. |
| MessageFormat.BoldKeepsNoNewline | script.js:115 | Bolding introduces no LF. |
| MessageFormat.BoldSafe | script.js:115 | Bolding preserves safe markup: on safe input, the output again consists only of plain characters, `<br>`, `<strong>`, `</strong>` and the four entity references. |
| MessageFormat.FormatAIMessage | script.js:103-118 | The formatter applies escaping, `\n` → `<br>`, the two bullet rules and the number rule, in the source's order. Its result is plain text, `<br>`, `<strong>` and `</strong>` tags, and entity references. There is no other tag, and no `<`, `>` or `&` outside these. The result contains no LF. |
| MessageFormat.FormatSingleLine | script.js:103-118 | If LF is the reply's only line terminator, formatting is escaping, then `\n` → `<br>`, then the leading `- `, the leading `* ` and the leading number, each at the very start of the text only. |

## Left out

- The completion call (app.py:80-85, 88), including its model name, temperature and token limit. It is an external network service. Its outcome is a `Completion` parameter.
- Flask routing, JSON request parsing and response building, CORS, and the API-key check at startup (app.py:1-17, 24, 101-104, 115-116). These are framework I/O. The routes' inputs are `Option` parameters, and their outputs are the methods' out-parameters.
- JSON values other than strings. A `null` `message` or `session_id`, or a `patient_data` that is not an object, are not modelled. Patient values are modelled only as JSON strings.
- A reply whose content is `None` is not modelled: the reply is always a string.
- ChatServer.Instructions and ChatServer.ExampleRest: the fixed instruction text (app.py:48-65) and the rest of the example conversation (app.py:66-69) are unspecified string constants, not their literal wording. No stated property depends on that wording. The exact characters around the patient block, the opening line and the example reply's name are modelled.
- The `TypeError` of app.py:66. For a new session, a non-empty `patient_data` and a `firstName` that is not a string (a number, `null`, a boolean), `', ' + firstName` raises. The request then fails before any session is created. The model cannot express this case, because its patient values are strings.
- ChatServer.ChatService.Chat: it passes the prompt into `Converse` unconditionally, whereas the source builds it only for a new session. For the string-valued patient data the model admits, building the prompt has no effect, and `Turn` uses it only for a new session.
- The database-backed variant (`database.py`, `init_db.py`) is not called from the chat routes. The test and console scripts are interactive loops over external services.
- Everything else in `script.js`: DOM construction, fetch calls, the typing indicator, the emergency alert, localStorage, and session ids from the clock and random numbers.
- Concurrent requests on the shared table: the source has no locking, and the model handles requests one at a time.
- JavaScript strings are UTF-16 code units, while Dafny's `char` is a Unicode scalar value. Characters outside the Basic Multilingual Plane count as one character here, not as two units. No rule here distinguishes the two.
