# Legalyze backend: the request rules of the five POST handlers

Legalyze is a Flask server that sends legal documents to Google Gemini. It
answers five POST endpoints: `/api/simplify`, `/api/redflags`, `/api/qa`,
`/api/improve` and `/api/suggestions`. This project models the
deterministic part of those handlers in Dafny:

- the validation prefix that decides between a 400 answer and the stripped
  text;
- the cleaning of the model's reply, which strips whitespace and a Markdown
  code fence;
- the JSON-or-fallback rule;
- the keyword routing of the demo Q&A answers;
- the conversation context built from the last three history turns;
- the demo "improve" rewrite, a chain of three `str.replace` calls;
- the handlers themselves, put together from those parts.

Python's own behaviour is modelled where the handlers rely on it:

- `str.strip()` with Python's whitespace set;
- `str.lower()`;
- `in` on a dict, list or str;
- truthiness;
- `str.replace`, as a leftmost, non-overlapping scan;
- `xs[-3:]`.

Expressions that raise (`TypeError`, `KeyError`, `AttributeError`) give
`Eval.Raises`, and the handler's catch-all turns that into its 500 answer.
The Gemini client is a parameter of each handler: `Model.Configured`
carries a function from prompt to reply, or to `Raises`. `json.loads` is a
parameter `parse` that returns a value or `Raises`.

Modules and files:

| module | file | what it holds |
|---|---|---|
| `PyStrings` | strings.dfy | Python whitespace, `strip`, `lower`, prefix, suffix and substring tests |
| `PyReplace` | replace.dfy | `str.replace`, with its split/join characterisation |
| `PyJson` | json.dfy | decoded JSON values; `in`, subscripts, `.strip()` and `len` on them |
| `Validation` | validation.dfy | the validation prefixes |
| `ModelReply` | reply.dfy | fence stripping, parse-or-fallback |
| `MockAnswers` | mock_answers.dfy | the demo Q&A routing |
| `HistoryContext` | history.dfy | the conversation context; its loop is a method |
| `MockImprove` | improve.dfy | the demo contract rewrite |
| `Handlers` | handlers.dfy | the five handlers as functions from request body to response |

## Model

| member | source | states |
|---|---|---|
| `PyStrings.Strip` | Legalyze-main/backend/app.py:57 | the result is a slice of the input with only whitespace cut off on either side; it neither starts nor ends with whitespace; it is empty iff the input is all whitespace |
| `PyStrings.StripIdempotent` | Legalyze-main/backend/app.py:57 | stripping a stripped text changes nothing |
| `PyStrings.StripPadded` | Legalyze-main/backend/app.py:201 | a text that neither starts nor ends with whitespace comes back exactly from any whitespace padding |
| `PyStrings.Lower` | Legalyze-main/backend/app.py:262 | the lower-cased text holds no ASCII capital and is at least as long as the input |
| `PyStrings.LowerByChar` | Legalyze-main/backend/app.py:262 | for a text without U+0130, the lower-cased text has the same length, and each character is the one at the same place with A-Z made a-z and KELVIN SIGN made `k`; every other character is kept |
| `PyStrings.LowerOfLowerCase` | Legalyze-main/backend/app.py:262 | a text without ASCII capitals, KELVIN SIGN or U+0130 is its own lower case |
| `PyStrings.LowerIdempotent` | Legalyze-main/backend/app.py:262 | lower-casing twice is the same as once |
| `PyStrings.LowerIgnoresCase` | Legalyze-main/backend/app.py:262 | texts that differ only in the case of their letters lower-case to the same text |
| `PyReplace.ReplaceSpec` | Legalyze-main/backend/app.py:331-340 | `replace` cuts the text at the leftmost non-overlapping occurrences of the phrase; the pieces glued with the phrase give back the text, and glued with the replacement give the result |
| `PyReplace.ReplaceAbsent` | Legalyze-main/backend/app.py:331-340 | a text without the phrase is left unchanged by `replace` |
| `Validation.ValidateText` | Legalyze-main/backend/app.py:53-59 | as in every single-text handler (also lines 130-136, 320-326 and 381-387): "No … text provided" iff the body is falsy or lacks `text`; "Empty … text" iff `text` is a str that is all whitespace; accepted iff it is a str with some non-whitespace, and then the value is the stripped text, never empty; otherwise the expression raises; the wording is "document" or "contract" |
| `Validation.ValidateQa` | Legalyze-main/backend/app.py:240-248 | "Document text and question are required" iff the body is falsy or lacks `text` or `question`; "Both document text and question must be provided" iff both are strs and one is all whitespace; accepted iff both have non-whitespace, and then both are stripped and `history` defaults to `[]`; the expression raises iff the body is truthy, holds both keys, and `text` or `question` is not a str |
| `Validation.AcceptedTextRevalidates` | Legalyze-main/backend/app.py:53-59 | the text a handler accepted, sent again as `{"text": …}`, is accepted unchanged |
| `Validation.AcceptedQaRevalidates` | Legalyze-main/backend/app.py:240-248 | the document, question and history the Q&A handler accepted, sent again, are accepted unchanged |
| `ModelReply.StripFences` | Legalyze-main/backend/app.py:204-207 | as at lines 447-450: the reply is the result with "```json" put back iff the reply starts with it and "```" put back iff it ends with it; so the result is a contiguous part of the reply, at most 10 characters shorter, and equal to it when neither fence is there |
| `ModelReply.StripFencesOfFenced` | Legalyze-main/backend/app.py:204-207 | stripping a fenced body gives back the body iff the body does not itself start with "```json" (when no opening fence was added) or end with "```" (when no closing fence was added) |
| `ModelReply.CleanedFencedReply` | Legalyze-main/backend/app.py:201-207 | a reply that is a fenced JSON text padded with whitespace reaches the parser as exactly that text |
| `ModelReply.RedFlags` | Legalyze-main/backend/app.py:210-221 | a reply that parses is answered as it was parsed; otherwise the answer is exactly the fixed one-element list: a red flag with risk "moderate", clause "Unable to parse contract clauses" and the fixed explanation, and no other key |
| `ModelReply.Suggestions` | Legalyze-main/backend/app.py:453-463 | a reply that parses is used as it was parsed; otherwise the suggestions are exactly the fixed one-element list: the suggestion titled "Review Contract Terms" with its fixed description, and no other key |
| `MockAnswers.Route` | Legalyze-main/backend/app.py:261-268 | on the lower-cased question: risk iff it mentions "risk" or "danger"; terminate iff not risk and it mentions "terminate", "exit" or "leave"; financial iff neither of those and it mentions "financial", "money", "cost" or "pay"; default iff none of them |
| `MockAnswers.RouteIsFirstMatch` | Legalyze-main/backend/app.py:263-268 | the if/elif chain equals the first match in the priority list risk, terminate, financial, with default when nothing matches |
| `MockAnswers.RouteIgnoresCase` | Legalyze-main/backend/app.py:262 | questions that differ only in letter case get the same answer, and lower-casing the question first changes nothing |
| `HistoryContext.LastThree` | Legalyze-main/backend/app.py:276 | `xs[-3:]` is the suffix of length min(3, len(xs)) |
| `HistoryContext.Transcript` | Legalyze-main/backend/app.py:273-277 | the context is empty iff there are no turns |
| `HistoryContext.TranscriptOfMany` | Legalyze-main/backend/app.py:273-277 | with three turns or more, the context is the header followed by the blocks of the last three turns, oldest first |
| `HistoryContext.TranscriptIgnoresOlderTurns` | Legalyze-main/backend/app.py:276 | turns before the last three never change the context |
| `HistoryContext.DecodeTurnsItems` | Legalyze-main/backend/app.py:276-277 | reading the items succeeds iff every item gives a turn (a dict with `question` and `answer`), and then each turn is read from the item at the same place |
| `HistoryContext.DecodeEncoded` | Legalyze-main/backend/app.py:276-277 | a history of `{"question", "answer"}` objects reads back as exactly its turns |
| `HistoryContext.BuildContext` | Legalyze-main/backend/app.py:273-277 | the loop computes `ContextOf(history)`: "" for a falsy history; a truthy history that is not a list raises, and so does one whose last three items include one that is not a dict holding both `question` and `answer`; otherwise the header and one block per item of `history[-3:]` |
| `HistoryContext.ContextOfEncoded` | Legalyze-main/backend/app.py:273-277 | for a history of `{"question", "answer"}` objects, the context is the transcript of those turns (empty iff there are none; otherwise the header and the last three blocks in order) |
| `MockImprove.ImproveSteps` | Legalyze-main/backend/app.py:331-340 | the rewrite replaces every leftmost occurrence of the late-fee phrase, then of the rent-increase phrase in that result, then of the penalty phrase in that result |
| `MockImprove.ImproveUntouched` | Legalyze-main/backend/app.py:331-340 | a contract holding none of the three phrases is returned unchanged |
| `Handlers.SimplifyDocument` | Legalyze-main/backend/app.py:44-119 | 400 iff validation rejects, with its message; without a model, the demo payload; with one, the reply under `simplified_text`; a body on which validation raises, and a model call that raises, give the 500 "Failed to process document", and so does every other non-400 error |
| `Handlers.AnalyzeRedFlags` | Legalyze-main/backend/app.py:121-228 | 400 iff validation rejects, with its message; without a model, the demo payload; with one, the parsed-or-fallback red flags, or a 500 when the parsed value has no `len`; every 200 body has a length; a body on which validation raises, and a model call that raises, give the 500 "Failed to analyze document", and so does every other non-400 error |
| `Handlers.AnswerQuestion` | Legalyze-main/backend/app.py:230-309 | 400 iff Q&A validation rejects, with its message; without a model, the routed demo answer whatever the history; with one, the reply to the prompt carrying the history context; a body on which validation raises, a malformed history and a model call that raises give the 500 "Failed to process question", and so does every other non-400 error |
| `Handlers.ImproveContract` | Legalyze-main/backend/app.py:311-370 | 400 iff validation rejects, with its "contract" message; without a model, the three-phrase rewrite of the stripped contract under `improved_text`; with one, the reply; a body on which validation raises, and a model call that raises, give the 500 "Failed to improve contract", and so does every other non-400 error |
| `Handlers.GetSuggestions` | Legalyze-main/backend/app.py:372-470 | 400 iff validation rejects, with its "contract" message; without a model, the demo payload; with one, the parsed-or-fallback suggestions under `suggestions`, or a 500 when the parsed value has no `len`; a body on which validation raises, and a model call that raises, give the 500 "Failed to generate suggestions", and so does every other non-400 error |

## Left out

- Flask routing, CORS and static files (app.py:34-42) are HTTP plumbing. Each handler is a function from the decoded request body to a `Response`.
- `request.get_json()` is not modelled. The handlers take the decoded body. A request whose body is not JSON is not modelled.
- The Gemini configuration (app.py:25-31) is not modelled. The `generate_content` calls are the `generate` function inside `Handlers.Model`, which returns the reply text or `Raises`.
- The internals of `json.loads` are not modelled. The parser is the `parse` parameter. Its `Raises` stands for `JSONDecodeError`.
- The wording of the five prompt templates is not modelled. `Handlers.Prompt` keeps only the values each prompt carries.
- The demo payloads of simplify, red flags and suggestions (app.py:64-91, 141-172, 392-413) are constant data. `Handlers.Response.Canned` names them without their contents.
- Logging, the health endpoint (app.py:472-479), the creation of `.env` and the server start (app.py:481-490) are I/O with no logic.
- The browser-side tab, flag, chat and sandbox state is not part of this model.
- `HistoryContext.Render`: `str()` of a number, list or dict inside the f-string is the `format` parameter. str, None and booleans are spelled out.
- `PyJson.Value`: JSON numbers are reals, so an int and a float with the same value (`5` and `5.0`) are not told apart. This matters in three places. Truthiness of a body or history is unaffected. A number inside a history turn reaches `format` as the same value either way, although the f-string at app.py:277 writes "5" or "5.0", so two prompts the source tells apart coincide here. The parsed reply the red-flags and suggestions handlers send back (app.py:224, 466) also loses the distinction.
- `PyStrings.Lower` maps ASCII capitals, KELVIN SIGN and LATIN CAPITAL LETTER I WITH DOT ABOVE. It keeps every other character. These are the only mappings of Python's `lower()` that produce an ASCII letter, so the keyword tests give the same answers. Non-ASCII letters are not lower-cased.
- `MockImprove.Improve` has no contract of its own. What it computes is stated by `MockImprove.ImproveSteps` and `MockImprove.ImproveUntouched`.
