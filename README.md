# OCR summary and chat: a Dafny model of the client core

This project models the browser-side core of a small OCR application. A user
uploads an image. The model (an OpenAI-style chat completion service) extracts
its text and summarises it, and the user can ask questions about the text.
Results are kept in the browser's `localStorage`.

Modules, one per source file plus shared support:

- `Wrappers` (`wrappers.dfy`): `Option`, `Result`, and `Thrown`, the values a
  rejected promise can carry. `Thrown` is an `Error` with a message, the
  SyntaxError of `JSON.parse`, or a non-`Error` value.
- `Text` (`text.dfy`): JavaScript's `trim`, `startsWith`, ASCII `toLowerCase`,
  `includes`, and `Number.prototype.toString` for natural numbers.
- `Upstream` (`upstream.dfy`): the model service as an oracle
  `Model = Request -> Completion`. `Request` names each kind of request the
  client sends and the data it carries. `Completion` is a reply, which may
  carry content, or a thrown error.
- `WebStorage` (`webstorage.dfy`): the browser table itself, as class
  `BrowserStore`. It holds the enumeration order `keys` and the entries. JSON
  is a `Codec` (`encode`, plus a `decode` that may fail). `Faithful` states the
  round-trip `JSON.parse(JSON.stringify(v)) = v`.
- `Storage` (`storage.dfy`): `LocalStorage`, a view of the table that is
  namespaced by prefix.
- `SummaryService` (`summary_service.dfy`): the summary list under the key
  `ocr_summaries`.
- `OcrService` (`ocr_service.dfy`): the stateless OCR service. It covers
  reading, extraction, the blank-text check, summarising, and the
  answer-quality filter. Every operation returns the model requests it made,
  so statements such as "no summary is requested" are facts about that list.
- `Api` (`api.dfy`): the session service `OCRService`. It stores image
  sessions under the prefix `ocr-sessions`.
- `UseOcr` (`use_ocr.dfy`): the `useOCR` hook, as a class whose fields are the
  hook's state.
- `QaSection` (`qa_section.dfy`): the chat panel's `handleSubmit`, as a class
  over the question, the message list and the loading flag.

Two behaviours of the storage layer are easy to overlook, and the model
keeps both as the code has them:

- `getAllItems` keeps every key that starts with the prefix itself, not with
  `prefix + "-"`. A view with prefix `ocr-sessions` therefore also returns the
  values written by a view with prefix `ocr-sessions2` or `ocr-sessions-x`.
  The lemmas `Storage.ExtendedPrefixSelected` and
  `Storage.SessionsViewSeesSessions2` state this.
- `getItem` and `getAllItems` have no `try`/`catch`. A stored value that is
  not JSON makes them reject with JSON.parse's error; it is not treated as
  absent.

## Model

| member | source | states |
|---|---|---|
| Storage.PrefixedInjective | src/utils/storage.ts:11 | within one view, distinct keys are stored under distinct table keys |
| Storage.PrefixedCollides | src/utils/storage.ts:11 | the dash is not escaped: for every prefix and keys `x`, `y`, the key `x-y` of view `prefix` and the key `y` of the different view `prefix-x` are one table key |
| Storage.PrefixedStartsWith | src/utils/storage.ts:11 | every table key a view writes starts with the view's prefix |
| Storage.Parse | src/utils/storage.ts:17-18 | an absent or empty item reads as null; a non-empty item reads as its decoded value, and decoding failure is exactly the case that rejects with the JSON error |
| Storage.Selected | src/utils/storage.ts:23-27 | a table key is enumerated by `getAllItems` exactly when it exists, starts with the prefix and holds a non-empty value; enumeration never repeats a key |
| Storage.SelectedAppend | src/utils/storage.ts:23-27 | selection keeps the enumeration order: the selected keys of a longer key list are those of its first part followed by those of the rest |
| Storage.Collect | src/utils/storage.ts:21-31 | on success, one item per selected key, in enumeration order, each the decoding of that key's value; it fails exactly when some selected value does not decode, and fails with the JSON error |
| Storage.CollectIgnoresOtherEntries | src/utils/storage.ts:23-28 | the scan reads only the values of the keys it enumerates: changing another key's value leaves its outcome unchanged |
| Storage.SetFreshThenCollect | src/utils/storage.ts:10-31 | after `setItem` under a new table key, `getAllItems` gives the previous items followed by the new value, or the same failure |
| Storage.CollectErrPersists | src/utils/storage.ts:23-29 | once a value has failed to parse, the outcome of the whole scan is that failure |
| Storage.ExtendedPrefixSelected | src/utils/storage.ts:25 | a value written by a view whose prefix extends this view's prefix is enumerated by this view |
| Storage.SessionsViewSeesSessions2 | src/services/api.ts:23 | the `ocr-sessions` view enumerates what an `ocr-sessions2` view wrote |
| Storage.SetThenGet | src/utils/storage.ts:10-19 | after `setItem(key, v)`, `getItem(key)` yields `v` |
| Storage.SetLeavesOtherKeys | src/utils/storage.ts:10-19 | `setItem(key, …)` leaves what `getItem` reports for every other key unchanged |
| Storage.LastWriteWins | src/utils/storage.ts:10-19 | of two `setItem` calls on one key, `getItem` yields the later value |
| Storage.RemoveThenGet | src/utils/storage.ts:33-36 | after `removeItem(key)`, `getItem(key)` is null and every other key reads as before |
| Storage.LocalStorage.constructor | src/utils/storage.ts:6-8 | the view keeps the prefix it was given |
| Storage.LocalStorage.SetItem | src/utils/storage.ts:10-13 | writes the encoded value under `prefix-key` and leaves every other table key unchanged; a new table key is enumerated after all existing ones, and an existing one keeps its place |
| Storage.LocalStorage.GetItem | src/utils/storage.ts:15-19 | yields the lookup of `prefix-key`; null when that table key is absent |
| Storage.LocalStorage.GetAllItems | src/utils/storage.ts:21-31 | the index loop yields exactly `Collect` of the table's keys, and stops at the first value that fails to parse |
| Storage.LocalStorage.RemoveItem | src/utils/storage.ts:33-36 | deletes `prefix-key` only, and the other keys keep their enumeration order; when it is absent, the table does not change at all |
| SummaryService.ReadSummaries | src/services/summaryService.ts:16-19 | an absent or empty stored text reads as the empty list; a non-empty one reads as its decoded list, and reading fails with the JSON error exactly when it does not decode |
| SummaryService.GetSummaries | src/services/summaryService.ts:16-19 | `getSummaries()` on the live table is `ReadSummaries` of its contents, and the empty list when the key is absent |
| SummaryService.SavedEntries | src/services/summaryService.ts:10-14 | saving fails exactly when reading fails; on success only `ocr_summaries` is written |
| SummaryService.SaveSummary | src/services/summaryService.ts:10-14 | on a read failure nothing is written; otherwise the table becomes `SavedEntries`, with `ocr_summaries` enumerated last if it is new |
| SummaryService.ClearSummaries | src/services/summaryService.ts:21-23 | removes the `ocr_summaries` key only; the other keys keep their enumeration order |
| SummaryService.SaveThenGet | src/services/summaryService.ts:10-19 | after `saveSummary(s)`, `getSummaries()` is the previous list followed by `s`, one longer |
| SummaryService.SaveTwiceKeepsBoth | src/services/summaryService.ts:10-14 | saving the same summary twice stores it twice: there is no de-duplication |
| SummaryService.ClearThenGet | src/services/summaryService.ts:16-23 | after `clearSummaries()`, `getSummaries()` is the empty list |
| OcrService.FileToBase64 | src/services/ocrService.ts:45-61 | resolves with the data URL exactly when the reader produced a string; a non-string result rejects with "Failed to read file as data URL"; a reader error rejects with a non-`Error` value |
| OcrService.CaughtMessage | src/services/ocrService.ts:35-42 | the catch rethrows an `Error`'s message unchanged and replaces anything else with "Failed to process image. Please try again." |
| OcrService.CommaIndex | src/services/ocrService.ts:66 | finds the first comma, or reports that there is none |
| OcrService.SecondField | src/services/ocrService.ts:66 | `split(',')[1]` exists exactly when there is a comma; it is the text from just after the first comma up to the next comma or the end |
| OcrService.Payload | src/services/ocrService.ts:66 | input without a comma is kept whole; when the input is changed, the result is the non-empty second field |
| OcrService.UpToCommaOfField | src/services/ocrService.ts:66 | a comma-free field followed by the end or a comma is cut back to exactly that field |
| OcrService.PayloadOfDataUrl | src/services/ocrService.ts:66 | `header,data`, followed by nothing or by further comma-separated fields, becomes exactly `data` when `data` is non-empty |
| OcrService.PayloadOfEmptyDataUrl | src/services/ocrService.ts:66 | a data URL with an empty payload is sent whole |
| OcrService.ExtractTextWithOpenAI | src/services/ocrService.ts:63-95 | exactly one vision request, with `data:image/jpeg;base64,` plus the payload; fails exactly when the request fails, always with the fixed message; missing content gives '' |
| OcrService.GenerateSummary | src/services/ocrService.ts:97-124 | exactly one summary request for the text; never fails; falls back to the fixed texts |
| OcrService.ProcessImage | src/services/ocrService.ts:9-43 | a failed read makes no request; success means exactly two requests, non-blank text, and a summary request for that text; every failure has a non-empty message |
| OcrService.ProcessImageRefusesBlankText | src/services/ocrService.ts:19-24 | whitespace-only extracted text fails with "No text could be extracted from the image." after the extraction request alone |
| OcrService.ProcessImageKeepsText | src/services/ocrService.ts:19-34 | otherwise the result is the untrimmed text and its summary |
| OcrService.ProcessImageErrors | src/services/ocrService.ts:35-42 | failure messages come only from the reader, the generic message, extraction, or the blank-text check; a non-string read, a reader error and a failed extraction request each give their own message |
| OcrService.RefusalPhrasePairs | src/services/ocrService.ts:158 | a text that contains "no answer" or "i cannot find" (in any case) has both character pairs "no" and "an" |
| OcrService.NeedsClarification | src/services/ocrService.ts:158 | an answer of 20 or more characters is taken for a refusal only when it has both pairs "no" and "an" |
| OcrService.QuestionPrompt | src/services/ocrService.ts:145 | the prompt begins with "Document Context: " and the context, and ends with the question, both verbatim |
| OcrService.FilterAnswer | src/services/ocrService.ts:155-162 | an answer that is short or reads like a refusal becomes the clarification text; any other answer is kept; the result has at least 20 characters |
| OcrService.AskQuestion | src/services/ocrService.ts:126-167 | exactly one request carrying context and question; the reply has at least 20 characters; a failure gives the apology; an answer goes through the filter |
| OcrService.LackingPairPassesFilter | src/services/ocrService.ts:158 | a text of 20 or more characters that lacks the pair "no" or the pair "an" is not rewritten |
| OcrService.ClarificationHasNoRefusal | src/services/ocrService.ts:158-159 | the clarification text itself passes the filter |
| OcrService.NotSureHasNoRefusal | src/services/ocrService.ts:155-158 | the no-content fallback passes the filter |
| OcrService.QuestionFailedHasNoRefusal | src/services/ocrService.ts:158-165 | the failure apology passes the filter |
| OcrService.FilterKeepsFixedAnswers | src/services/ocrService.ts:155-165 | the filter keeps each of the three fixed answers unchanged |
| OcrService.FilterIdempotent | src/services/ocrService.ts:155-162 | filtering a filtered answer changes nothing |
| OcrService.AskQuestionWithoutContent | src/services/ocrService.ts:155 | a reply without content yields "I'm not sure how to respond to that. …" |
| Api.OcrSessionService.constructor | src/services/api.ts:22-24 | the session store is the `ocr-sessions` view |
| Api.OcrSessionService.GenerateImageSummary | src/services/api.ts:26-62 | a failed read or request is rethrown unchanged, and nothing is stored; otherwise there is one request with the data URL as read, and the session, with its content or '', is stored under its own id (enumerated last if the id is new) and returned |
| Api.OcrSessionService.AskQuestion | src/services/api.ts:64-89 | an unknown id fails with "Session not found" before any request, and a lookup error is rethrown; otherwise one request is made with the stored summary as context, and its failure is rethrown |
| Api.OcrSessionService.GetSessions | src/services/api.ts:91-93 | yields exactly what `getAllItems` of the `ocr-sessions` view yields |
| Api.CreateThenAsk | src/services/api.ts:26-89 | a session just created is found: asking about it sends the request with its summary, and the answer is that request's outcome |
| Api.CreateThenList | src/services/api.ts:26-93 | a session created under a new id is listed last: `getSessions()` afterwards is the previous list followed by it, or the same failure |
| Api.TwoSessionsCoexist | src/services/api.ts:56 | two sessions stored with distinct ids are both retrievable |
| UseOcr.ErrorMessage | src/hooks/useOCR.ts:39-41 | the message shown is never empty: it is the response message if non-empty, else the error's message if non-empty, else the generic text |
| UseOcr.ServiceSettlement | src/hooks/useOCR.ts:29-37 | the service never resolves to null; it resolves with the service's own result when processing succeeds, and rejects exactly when processing fails, with the service's message |
| UseOcr.ServiceErrorShownVerbatim | src/hooks/useOCR.ts:38-49 | a service failure is shown with the service's own message |
| UseOcr.OcrHook.constructor | src/hooks/useOCR.ts:10-13 | initially there is no image, no loading, no error and no result |
| UseOcr.OcrHook.Text | src/hooks/useOCR.ts:64 | the result's text, or '' without a result |
| UseOcr.OcrHook.Summary | src/hooks/useOCR.ts:65 | the result's summary, or '' without a result |
| UseOcr.OcrHook.ProcessImage | src/hooks/useOCR.ts:15-54 | without a file, only the error is set; otherwise the image is recorded and loading ends false; a result is stored and returned with no error; a null result or a rejection keeps the previous result and sets the error message |
| UseOcr.OcrHook.ProcessWithService | src/hooks/useOCR.ts:15-54 | with the real service, the hook holds either the service's error message with the previous result, or the service's result (so `text` and `summary` are its fields) with no error; a shown result has non-blank text |
| UseOcr.OcrHook.Reset | src/hooks/useOCR.ts:56-60 | clears image, result and error (`text` and `summary` become ''), and leaves loading alone |
| QaSection.ClockId | src/components/QASection.tsx:43-61 | the user message id (`user-`) and the placeholder id (`temp-`) are the tag followed by decimal digits that read back as the clock reading |
| Text.NatToStringValue | src/components/QASection.tsx:60 | the decimal digits `toString` gives for a reading denote that reading, so distinct readings print differently |
| QaSection.ClockIdInjective | src/components/QASection.tsx:44-60 | under one tag, two ids are equal exactly when their clock readings are |
| QaSection.UserIdIsNotTempId | src/components/QASection.tsx:43-61 | a user message id never equals a placeholder id |
| QaSection.ReplaceById | src/components/QASection.tsx:77-83 | every message with the id gets the answer and stops loading; every other message is unchanged; the length is kept |
| QaSection.Exchange | src/components/QASection.tsx:43-92 | one exchange adds two messages (answered) or three (thrown); the first added is the trimmed question from the user |
| QaSection.ExchangeKeepsHistory | src/components/QASection.tsx:54-91 | earlier messages are kept after a thrown request, and after an answer unless one carries the new placeholder's id |
| QaSection.ExchangeAnswered | src/components/QASection.tsx:77-83 | the answer lands in the placeholder's slot, which stops loading |
| QaSection.ExchangeFailed | src/components/QASection.tsx:84-92 | when the request throws, the placeholder stays empty and loading, and the apology follows it |
| QaSection.ExchangeOverwritesSameIdPlaceholder | src/components/QASection.tsx:77-83 | an older message with the same placeholder id is overwritten by the new answer too |
| QaSection.ExchangeKeepsEarlierPlaceholder | src/components/QASection.tsx:60-83 | a placeholder from an earlier, different clock reading is left as it was when the new answer arrives |
| QaSection.Chat.constructor | src/components/QASection.tsx:20-22 | starts with an empty question, no messages, not loading |
| QaSection.Chat.HandleSubmit | src/components/QASection.tsx:39-97 | a blank question, or a submit while loading, changes nothing; otherwise the input is cleared, the exchange is appended, and loading ends false |
| QaSection.Chat.Ask | src/components/QASection.tsx:43-96 | past the guard, the input ends cleared, loading ends false, and the messages are the history followed by the exchange for the trimmed question |
| QaSection.Chat.SubmitWithService | src/components/QASection.tsx:39-97 | with the real `askQuestion`, which never throws, one request is sent with the trimmed question; the input is cleared, loading ends false, and the messages are the exchange with `askQuestion`'s answer in the placeholder, at least 20 characters long |

## Left out

- The chat completion service, its prompts, model names and token limits are
  not modelled. Each request is a `Request` value carrying the data the client
  puts into it: the image URL, the text, the question and the context. The
  replies are an arbitrary oracle.
- `FileReader` is reduced to its three outcomes: a string result, a
  non-string result, or an error. `URL.createObjectURL`, `crypto.randomUUID`
  and `Date.now` are values passed in.
- `JSON.stringify` and `JSON.parse` are the abstract `Codec`. The round-trip
  is assumed only where a lemma requires `Faithful`.
- JSON of a shape other than the stored type is modelled as a decoding
  failure (`MalformedJson`). In the code it parses: `getSummaries` returns a
  non-list such as `null`, and `saveSummary` then fails with a TypeError at
  `push`; `askQuestion` reports a stored `null`, `false`, `0` or `""` as
  "Session not found".
- Browser `localStorage` enumeration order is implementation-defined. It is
  modelled as insertion order, so `getAllItems` results are ordered by when
  each key was first written.
- Quota errors from `localStorage.setItem` are not modelled. Writes always
  succeed.
- `toLowerCase` folds only ASCII letters, and whitespace follows
  ECMAScript's `trim` set. `length` counts characters rather than UTF-16 code
  units, so the 20-character threshold differs for text outside the Basic
  Multilingual Plane.
- Console logging, React rendering, state batching, the auto-resize and
  auto-scroll effects, and `formatTime` are not modelled. Hook and component
  updates are modelled as their final state after the awaited call settles.
- Concurrency between overlapping `processImage` or `handleSubmit` calls is
  not modelled. Each call runs to completion.
- UseOcr.OcrHook.ProcessImage: the awaited service outcome is a parameter, so
  the null-result branch is reachable in the model. With the real service it
  is not (`UseOcr.ServiceSettlement`).
- QaSection.Chat.HandleSubmit: the three `Date.now()` and `new Date()`
  readings are the three clock parameters. Message timestamps reuse the same
  readings as the ids.
- The usage snippets at the end of `src/utils/storage.ts` (lines 39–49) only
  call the session service, so they are not modelled separately.
