# Credit ledger and reply extraction of the xiaoe comment-generation backend

`server.js` is an Express backend for a teacher-facing tool that writes
student report comments with a large language model. Every user has a
balance of credits:
- registration grants 50 credits;
- each generated comment costs one credit per student profile;
- a paid Alipay trade adds 50 credits.

This project models that backend in Dafny:

- **JsonValues** (`json.dfy`): parsed JSON as a tree, and `findArrayInJson`,
  the depth-first search that digs the array out of the model's reply. It is
  proved to return exactly the first array of a pre-order walk of the tree.
- **Extraction** (`extraction.dfy`): the regular expression inside `callAI`
  that cuts the JSON out of the raw reply text. It is written out position
  by position: the leftmost match, the "```json" fence with its lazy body,
  and the greedy `[...]` / `{...}` spans. `CallAI` composes the extraction
  with `JSON.parse` and the search.
- **Ledger** (`ledger.dfy`): the `users` collection as a
  `map<string, User>`. Each route handler is a function from the store
  before the request to the reply, the store after it, and whether the
  model was called. Lemmas cover sequences of requests:
  - no balance ever goes negative;
  - no record is lost or has its password changed;
  - repeated requests are charged at most `floor(balance / cost)` times;
  - a repeated payment notification credits again.
- **Server** (`server.dfy`): the same handlers as methods of a `UserStore`
  class that owns the map. Each method goes through its handler's steps in
  the source's order, and is proved to end exactly as the Ledger function says.

Collaborators the code calls but does not define are inputs:
- the vendor's reply text (`raw`, None when the HTTP request or the access to
  the reply's fields fails);
- `JSON.parse` (`parse`, None when it throws);
- Alipay's signature check (`signatureValid`);
- the username decoded from `passback_params` (`passbackUser`, None when
  decoding or parsing throws).

A missing request field (`undefined`) and an empty one are both falsy in
JavaScript, and the document store refuses both as a document id. The model
writes both as `""`.

The model follows the code, which departs from a strict credit ledger in
these ways:
- generate-alternatives is free, and only checks that the user exists;
- the payment notification keeps no order record, so a duplicate
  notification credits 50 again;
- the ledger's debit is an unguarded `increment(-n)`; the balance stays
  non-negative only because generate-comment checks it first;
- the model's reply is not checked against the comment schema;
- extraction does no bracket matching. Unless a fence matches earlier, it
  starts at the leftmost `[` (or `{`) that has a closing bracket somewhere
  after it. It then takes everything up to the last `]` (or `}`) of the text.

## Model

| member | source | states |
|---|---|---|
| `JsonValues.FindArray` | server.js:265-274 | an array is returned as it is, even an empty one; null, booleans, numbers and strings give null; any non-null result is an array |
| `JsonValues.FindInMembers` | server.js:268-271 | the `for...in` loop: a non-null result is an array (which member it comes from is stated by `FindArrayInObject`) |
| `JsonValues.FindArrayInObject` | server.js:267-272 | on an object, the result is null iff every member value gives null; otherwise it is the result of the first member value, in key order, that does not give null |
| `JsonValues.FindArrayIsFirstArray` | server.js:265-274 | the search returns exactly the first array of the pre-order walk of the tree |
| `JsonValues.FindArrayFindsSubterm` | server.js:265-274 | a non-null result occurs in the input; null comes back iff the input holds no array anywhere |
| `JsonValues.NestedArrayIsFound` | server.js:267-271 | an array under `{"data": {"result": ...}}` is found |
| `JsonValues.EarlierKeyWins` | server.js:268-270 | for an object whose first member is a scalar and whose second and third members are arrays, the array under the second key is returned (an array nested in an earlier member would win instead) |
| `Extraction.SkipSpaces` | server.js:239 | a greedy `\s*` stops at the first non-space after its start |
| `Extraction.FindFrom` | server.js:239 | the closing "```" is the first occurrence at or after the start position, or there is none |
| `Extraction.TrimSpacesBack` | server.js:239 | the lazy fenced body ends where the spaces in front of the closing fence begin |
| `Extraction.LastIndexAfter` | server.js:239 | the greedy `.*` of the bracket alternatives ends at the last closing bracket of the text |
| `Extraction.MatchAt` | server.js:239 | a match attempt at one position captures a span inside the text (which span: `FenceMatch`, `SpanMatch`; no match elsewhere: `NoMarkerNoMatch`) |
| `Extraction.FenceMatch` | server.js:239 | for every text: after "```json", the capture starts where the spaces end; the alternative matches iff a "```" follows; the lazy body ends at the first position from which spaces and then "```" follow |
| `Extraction.SpanMatch` | server.js:239 | for every text: at a `[` (or `{`) the alternative matches iff a `]` (or `}`) follows, and the capture runs from there to the last closing bracket of the text |
| `Extraction.EmptyCaptureFails` | server.js:240-241 | for every text: an empty capture can only come from a fence, and it hands `undefined` to `JSON.parse`, so the call throws |
| `Extraction.NoMarkerNoMatch` | server.js:239 | a position that starts neither "```json" nor a `[` or `{` starts no match, a closing "```" or a lone backquote included |
| `Extraction.LeftmostMatch` | server.js:239 | the match is taken at the first position where some alternative matches |
| `Extraction.FirstMatchIsExtracted` | server.js:239-240 | the capture of the leftmost match, when non-empty, is the string handed to `JSON.parse` |
| `Extraction.Extract` | server.js:238-240 | with no match anywhere, the whole raw text is parsed; whatever is parsed is a substring of the text; an empty capture yields nothing to parse (None, `undefined` in the source) |
| `Extraction.CallAI` | server.js:234-245 | the call throws iff the request fails, the extraction yields `undefined` or the parse throws; otherwise it returns the search's result on the parsed extract, which is null or an array |
| `Extraction.PlainTextIsParsedWhole` | server.js:238-241 | a reply with no "```json" and no `[` or `{` is parsed whole (stray backquotes included), and the search runs on what the parse gives |
| `Extraction.StrayBackquotesAreParsedWhole` | server.js:239-240 | a lone backquote between two letters, and a letter between two bare "```", start no match: such replies are parsed whole |
| `Extraction.FenceCapture` | server.js:239 | one layout only: when the body, between the spaces after "```json" and one space before the first closing "```", is non-empty and starts and ends with a non-space, the capture is exactly that body |
| `Extraction.FencedJsonIsExtracted` | server.js:239-240 | JSON between "```json" plus a line break and a line break plus "```" is what gets parsed, whatever follows the fence, provided the text before the fence holds no backquote, `[` or `{` (otherwise an earlier match may win), and the JSON is non-empty, holds no "```" (a "```" inside it would end the body early) and neither starts nor ends with a space |
| `Extraction.FencedExample` | server.js:239-240 | the reply "Here you go:\n```json\n[\"a\",\"b\"]\n```" gives `["a","b"]` |
| `Extraction.BracketSpanIsExtracted` | server.js:239-240 | when the text before a `[` holds no backquote, `[` or `{`, the span from that `[` to the last `]` of the text is what gets parsed |
| `Extraction.EmptyFenceFails` | server.js:240-241 | an empty fenced block yields `undefined` for `JSON.parse`, so the model call fails |
| `Ledger.Increment` | server.js:141 | `increment(delta)` moves one user's balance by exactly delta and changes nothing else |
| `Ledger.Register` | server.js:54-69 | succeeds (201) iff username and password are non-empty and the name is free; it then adds exactly one record with 50 credits and the given password; otherwise the reply is 400 and the store is unchanged, with missing fields reported before a taken name |
| `Ledger.Login` | server.js:71-86 | never changes the store; 200 with name and balance iff the username is non-empty, the user exists and the stored password equals the given one; otherwise 401 for a non-empty username, while an empty or missing one gives 500 |
| `Ledger.GetUser` | server.js:88-100 | never changes the store; 200 with name and balance iff the username is non-empty and the user exists; otherwise 404 for a non-empty username, 500 for an empty one |
| `Ledger.Notify` | server.js:125-149 | a bad signature answers 400 "failure" and changes nothing; a status that is not paid answers "success" and changes nothing; a paid status adds exactly 50 to the passback user's credits and nothing else, or answers 500 "failure" with no change when that user does not exist |
| `Ledger.GenerateComment` | server.js:152-175 | the model is called iff the username is non-empty, the user exists, `studentProfiles` is present and the balance is at least the number of profiles; an unknown non-empty username gets 401 (an empty one, or missing profiles, 500); a short balance gets 403 with the required and remaining amounts; a failed call gives 500 with all balances unchanged; a returned call, even one with a null result, debits exactly the number of profiles, from the requester only |
| `Ledger.GenerateAlternatives` | server.js:177-191 | never changes any balance; calls the model iff the username is non-empty and the user exists; 401 for an unknown non-empty username, 500 for an empty one; once called, 200 with the result or 500 if the call throws |
| `Ledger.RunKeepsWellFormed` | server.js:160-168 | after any sequence of requests, every balance is non-negative |
| `Ledger.RunKeepsRecords` | server.js:62 | no request removes a user or changes a name or password |
| `Ledger.LoginStillSucceeds` | server.js:76 | a password that logs in keeps logging in after any sequence of requests |
| `Ledger.RepeatedCommentsNeverOverspend` | server.js:160-168 | of k requests costing n credits each whose model calls all return, starting from balance b, exactly min(k, b / n) are charged, each by n |
| `Ledger.ShortOfCreditsIsRefused` | server.js:160-163 | 2 credits and 3 profiles: 403 reporting 3 required and 2 remaining, no model call, the balance stays 2 |
| `Ledger.SecondRegistrationFails` | server.js:59-60 | registering a taken name again fails with 400 and leaves the first record, with 50 credits, as it was |
| `Ledger.DuplicateNotificationCreditsTwice` | server.js:136-141 | the same paid notification twice adds 100 credits; no other record changes |
| `Server.UserStore.Register` | server.js:54-69 | the method's reply and new store are those of `Ledger.Register` |
| `Server.UserStore.Login` | server.js:71-86 | reads only; 200 iff the user exists and the password matches; the reply is that of `Ledger.Login` |
| `Server.UserStore.GetUser` | server.js:88-100 | reads only; 200 iff the user exists; the reply is that of `Ledger.GetUser` |
| `Server.UserStore.NotifyPayment` | server.js:125-149 | the method's reply and new store are those of `Ledger.Notify` |
| `Server.UserStore.GenerateComment` | server.js:152-175 | the checks run before the model is called; reply, new store and call flag are those of `Ledger.GenerateComment` applied to the outcome of `CallAI` |
| `Server.UserStore.GenerateAlternatives` | server.js:177-191 | reads only; calls the model iff the user exists; the reply is that of `Ledger.GenerateAlternatives` |

## Left out

- Express wiring, CORS, body parsing and `app.listen` (server.js:39-47, 196-198): HTTP plumbing.
- Firebase initialisation (server.js:16-26). Store I/O errors other than a refused document id are not modelled: each would surface as a 500 from the handler's catch block.
- The document store's document-path rules beyond "non-empty" are not modelled. The ids it also refuses include, for example, ids containing '/', "." and "..", ids of the form `__…__`, and ids over 1500 bytes.
- Request fields of the wrong JSON type are not modelled, for example a number as the username or a string as `studentProfiles`.
- Concurrency: the atomicity of `FieldValue.increment`, the race between the read at server.js:156 and the debit at server.js:168, and the race between the read and the write in register. Handlers run one at a time here.
- `/api/create-alipay-order` (server.js:103-123): it only calls the Alipay SDK and builds an order id from the clock. It changes no state of the model.
- `checkNotifySign` (server.js:128) is a boolean input. An exception inside it (a 500 "failure") is not modelled.
- Building the vendor request, the choice of vendor, `axios.post`, and the access to the reply's fields (server.js:203-237) are left out: network I/O and vendor schemas. Together they become the `raw` input.
- `JSON.parse` and `decodeURIComponent` (server.js:137, 241) are inputs: library parsers.
- JSON numbers are kept as text. Object members are listed in `for...in` enumeration order, as the parser produced them. JavaScript enumerates integer-like keys first; `parse` is taken to list the members in that order.
- Strings are sequences of Unicode scalar values, not UTF-16 code units.
- `getBasePrompt` (server.js:248-263) and the prompt of generate-alternatives (server.js:184): prompt text with no behaviour to state.
- Temperatures and other floating-point settings, and all logging.
