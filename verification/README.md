# remember-me: a Dafny model of the capture, analysis and profile-editing core

remember-me lets a user photograph a person, have a face-analysis engine
describe the photo, and keep dated, located records of the people they meet.
This project models the parts of it that make decisions:

- **The relay** (`server/src/app.js`, module `Relay`). This is the
  `/analyze-face` handler. It rejects a missing image and strips a
  `data:image/<subtype>;base64,` prefix. It writes the payload to the engine
  process's stdin, then closes it. The process's events arrive as method calls
  on an `AnalyzeFaceRequest` object: a stdin error, a stdout chunk, a stderr
  chunk, a startup error, and close with an exit code. The object collects
  stdout in `result` and stderr in `errorOutput`. It answers at most once,
  and a response once sent is never replaced: 400, 500 on a startup error,
  500 with the stderr text on a non-zero exit, 500 on unparseable output, or
  200 with the parsed output forwarded as is. Three paths end without the close
  callback answering: a non-string image makes the handler throw before
  spawning, so nothing is sent; a process whose close event never arrives,
  and that reports no startup error, is never answered; and a zero exit after
  a startup error has already sent its 500 sends nothing more, and the close
  callback throws on its attempted second send (`uncaught`). `response.Some?` plays the part of
  `res.headersSent`.
- **The analyzer** (`rekognition/aws_rekognition.py`, module `Rekognition`).
  `RekognitionAnalyzer` is available only when both credentials are set and
  the client could be built. `AnalyzeFace` turns a detection response into
  `{available, face_count, faces}`, one summary per face, in order. Missing
  `Smile`, `Beard` and `Emotions` entries get default values. A face missing
  `Confidence` or `BoundingBox` fails the whole report with the `KeyError` text.
- **The engine entry point** (`rekognition/cli_wrapper.py`, module
  `CliWrapper`). `Main` is one pure function over three inputs: stdin, the
  analyzer's availability, and what the analyzer returns. It strips the input
  with Python's `str.strip()`, then guards against empty input and an
  unavailable analyzer. It prints one record.
- **The profile editor** (`client/src/screens/EditProfileScreen.js`, module
  `EditProfile`). It loads the signed-in user's records of one person, newest
  first. It selects the newest record and fills the form from it, using `''`
  for null fields. Saving writes a normalised payload to the selected record's
  id only. Deleting removes one record by id and then reloads. The recent
  dates, locations and events come from the first three records, with falsy
  values dropped. The record store is a map from id to row, held by the screen.
  The delete is modelled twice: as written, where a failed reload leaves the
  deleted record listed (see Findings), and corrected, where the deleted
  record is also dropped from the list. The corrected screen keeps its list a
  current answer of the store (`EditProfileScreen.Current`).
- **The capture screen** (`client/src/screens/RecordScreen.js`, module
  `Capture`). It is a two-state screen: either the camera, or a captured photo
  with a description. Capture, retake and text editing change that state.
  Submit does nothing.

Shared modules: `Base` (Option, Result), `JsonValue` (parsed JSON and
JavaScript truthiness), and `Text`. `Text` trims whitespace at both ends and
is parameterised by whose whitespace is meant. JavaScript's `trim` and
Python's `strip` differ: Python also strips U+001C..U+001F and U+0085, and
JavaScript also strips U+FEFF.

Foreign calls are inputs to the model:

- `JSON.parse` is a parameter `parse: string -> Option<Json>`.
- The `detect_faces` call and base64 decoding are one input of type `DetectOutcome`.
- The environment variables are an input of type `Env`, and building the client is a boolean `clientFails`.
- Each store query is an input of type `Fetch`. When it succeeds, its rows must be a correct answer to the query (`IsAnswer`).
- Whether an update or delete failed is a boolean input.
- The camera ref and the photo uri are inputs.

One behaviour of the relay is modelled as the code has it. The zero-exit
branch of `close` does not check `headersSent`. So if a response had already
been sent, `res.json` throws. The catch block's own send then throws again, and
the error escapes the callback. `OnClose` records this in `uncaught`.

Two other places where the code departs from its intended design are also
modelled as the code has them. The editor selects `data[0]` of the store's
`created_at` ordering with no tie-break. No roster grouping or search exists
in the code.

## Model

| member | source | states |
|---|---|---|
| `Text.TrimStartCuts` | rekognition/cli_wrapper.py:9 | the left trim keeps a suffix of its input, removes only whitespace, and stops at the first character that is not whitespace |
| `Text.TrimEndCuts` | rekognition/cli_wrapper.py:9 | the right trim keeps a prefix of its input, removes only whitespace, and stops at the last character that is not whitespace |
| `Text.Trim` | client/src/screens/EditProfileScreen.js:95-97 | the result is at most as long as the input and has no whitespace at either end |
| `Text.TrimCuts` | rekognition/cli_wrapper.py:9 | the trimmed text is a contiguous piece of the input, and everything cut from either side is whitespace |
| `Text.TrimEmptyIff` | rekognition/cli_wrapper.py:9-10 | trimming gives the empty string exactly when the input is all whitespace |
| `Text.TrimOfTrimmed` | client/src/screens/EditProfileScreen.js:95-97 | a string with no whitespace at either end is left unchanged |
| `Text.TrimIdempotent` | client/src/screens/EditProfileScreen.js:95-97 | trimming twice is the same as trimming once |
| `Relay.CheckImage` | server/src/app.js:20-26 | an absent or falsy image is rejected; a non-empty string goes on; any other truthy value is one `.replace` cannot be called on |
| `Relay.StripDataUriPrefix` | server/src/app.js:26 | the stripped payload is always a suffix of the image string |
| `Relay.StripRemovesMatchedPrefix` | server/src/app.js:25-26 | when the image starts with `data:image/`, one or more word characters and `;base64,`, exactly that prefix is removed |
| `Relay.StripKeepsUnprefixed` | server/src/app.js:26 | an image with no such prefix is returned unchanged |
| `Relay.StripRemovesOnlyOnePrefix` | server/src/app.js:26 | for any two data-URI prefixes `p` and `q`, stripping `p + q + rest` gives `q + rest`: only the first prefix is removed |
| `Relay.AnalyzeFaceRequest.constructor` | server/src/app.js:18-82 | a missing image answers 400 `No image data provided` and spawns nothing; a non-string image throws before spawning; otherwise the engine is spawned, gets exactly the stripped payload on stdin, and stdin is closed, with nothing sent yet |
| `Relay.AnalyzeFaceRequest.OnStdinError` | server/src/app.js:41-43 | a stdin write error changes no state |
| `Relay.AnalyzeFaceRequest.OnStdout` | server/src/app.js:45-47 | the chunk is appended to `result`, and nothing else changes (so `errorOutput` is unaffected) |
| `Relay.AnalyzeFaceRequest.OnStderr` | server/src/app.js:49-52 | the chunk is appended to `errorOutput`, and nothing else changes (so `result` is unaffected) |
| `Relay.AnalyzeFaceRequest.OnError` | server/src/app.js:54-59 | sends 500 `Failed to start analysis engine…` only if nothing was sent yet; an earlier response is kept |
| `Relay.AnalyzeFaceRequest.OnClose` | server/src/app.js:61-77 | a non-zero or missing exit code sends 500 with `detail` equal to the collected stderr, only if nothing was sent yet. A zero exit sends the parsed stdout with 200, or 500 `Invalid response from analysis engine` when it does not parse. A sent response is never replaced, and a zero exit after one makes the callback throw |
| `Rekognition.RegionOf` | rekognition/aws_rekognition.py:21 | the region defaults to `us-west-2` only when the variable is unset |
| `Rekognition.Summarize` | rekognition/aws_rekognition.py:58-69 | a face fails exactly when `Confidence` or `BoundingBox` is missing, with the first missing key's `KeyError` text. Otherwise the summary has the face's confidence and box. `smiling` and `smile_confidence` are the `Smile` entry's `Value` and `Confidence`, and `has_beard` the `Beard` entry's `Value`, each defaulting to false or 0 when the entry or key is missing. No emotions gives `Unknown`; otherwise the first emotion's `Type` is used |
| `Rekognition.SummarizeAll` | rekognition/aws_rekognition.py:55-69 | on success, one summary per face in the same order; otherwise the error of the first face that fails, after faces that all succeed |
| `Rekognition.ReportOf` | rekognition/aws_rekognition.py:46-81 | a raised call reports `str(e)`. A response without `FaceDetails` reports that key. With `FaceDetails`, the report is an analysis exactly when every face summarises; a failed report carries the error of the first face that fails. On success, `face_count` equals the number of faces and the length of `faces`, and each summary is that face's |
| `Rekognition.IncompleteFaceFailsReport` | rekognition/aws_rekognition.py:62-81 | one face missing `Confidence` or `BoundingBox` makes the whole report unavailable; when every earlier face is complete, the error is the `KeyError` text of the key that face lacks (`Confidence` first) |
| `Rekognition.RekognitionAnalyzer.constructor` | rekognition/aws_rekognition.py:15-37 | available exactly when both credentials are non-empty and building the client did not raise; the client exists exactly then, built for the configured region |
| `Rekognition.RekognitionAnalyzer.AnalyzeFace` | rekognition/aws_rekognition.py:39-81 | an unavailable analyzer reports `AWS Rekognition not available` without echoing a response. Otherwise it returns the report of the detection outcome, and echoes the response exactly when the call returned one |
| `CliWrapper.Main` | rekognition/cli_wrapper.py:6-23 | a read error prints `str(e)`. All-whitespace input prints `No input data provided` and builds no analyzer. An unavailable analyzer prints `Rekognition analyzer not initialized` and is never asked. Otherwise the analyzer gets the stripped input, and its result is printed |
| `CliWrapper.OnlyAnalysisIsAvailable` | rekognition/cli_wrapper.py:10-23 | every branch that does not call the analyzer prints a record with `available: False` |
| `CliWrapper.StdoutAsWritten` | rekognition/aws_rekognition.py:52 | the engine's stdout ends with the record `main` prints |
| `CliWrapper.StrayPrintPrecedesDocument` | rekognition/aws_rekognition.py:52 | on the success path, stdout as written holds two lines: the Python repr of the response, then the JSON record |
| `CliWrapper.StdoutIsOneDocument` | rekognition/cli_wrapper.py:8-23 | corrected half of the stray-echo finding: without the echo, stdout is one JSON line by construction; the lemma adds that each error path's document is `available: False` with its message, and that only the analyze path can print an analysis |
| `CliWrapper.RunEngine` | rekognition/cli_wrapper.py:8-20 | running `main`'s steps (strip, guard, build the analyzer from the environment, call `analyze_face`) prints the record `Main` specifies, where the analyzer's report is the report of the detection outcome; stdout as written carries the echo exactly when the service returned a response |
| `EditProfile.SelectedIsNewest` | client/src/screens/EditProfileScreen.js:55-69 | for a correct query answer, `data[0]` is one of the user's same-name records and no such record is newer |
| `EditProfile.FormText` | client/src/screens/EditProfileScreen.js:70-72 | a null field shows as `''`, and a present one as itself |
| `EditProfile.OrNull` | client/src/screens/EditProfileScreen.js:96-98 | an empty string becomes null, and any other string is kept |
| `EditProfile.Payload` | client/src/screens/EditProfileScreen.js:94-99 | the name is trimmed. Event and location are trimmed, and null exactly when all whitespace. The date is null exactly when empty and otherwise untrimmed. The payload is always normalised |
| `EditProfile.SaveWithoutEditsKeepsRow` | client/src/screens/EditProfileScreen.js:64-99 | loading a normalised record into the form and saving without edits writes back exactly its values |
| `EditProfile.UpdateRow` | client/src/screens/EditProfileScreen.js:92-100 | the update rewrites the four columns of the row with that id only; every other row and that row's id, owner, photo and timestamp are unchanged |
| `EditProfile.DeleteRow` | client/src/screens/EditProfileScreen.js:127-130 | the delete removes exactly the given id and leaves every other row unchanged |
| `EditProfile.LastPhotoCannotBeDeleted` | client/src/screens/EditProfileScreen.js:307-317 | whenever the delete control is shown over a list that is a current answer of the store (right after a successful load, or at any time on the corrected screen), deleting the selected record still leaves a record of that profile |
| `EditProfile.WithoutIdCounts` | client/src/screens/EditProfileScreen.js:116-146 | corrected delete: the list filter it adds before the reload at line 136 (the source has none); dropping a deleted id from the list removes every row with that id and keeps every other row as often as it was |
| `EditProfile.WithoutIdKeeps` | client/src/screens/EditProfileScreen.js:116-146 | corrected delete: of the list filter it adds before the reload at line 136, every row the filter keeps is from the list and has a different id |
| `EditProfile.WithoutIdKeepsOrder` | client/src/screens/EditProfileScreen.js:116-146 | corrected delete: with the list filter it adds before the reload at line 136, the filtered list stays ordered newest first |
| `EditProfile.MatchingAfterDelete` | client/src/screens/EditProfileScreen.js:127-130 | after the delete, the profile's records are the previous ones without the rows with that id |
| `EditProfile.PruneKeepsAnswer` | client/src/screens/EditProfileScreen.js:116-146 | corrected delete: the store delete at lines 127-130 together with the list filter the correction adds before line 136; dropping the deleted record from a current list gives a current list for the store after the delete |
| `EditProfile.DeleteKeepsCurrent` | client/src/screens/EditProfileScreen.js:116-146 | corrected delete: a list that is empty or current stays so across the corrected delete |
| `EditProfile.Compact` | client/src/screens/EditProfileScreen.js:161 | `filter(Boolean)` keeps exactly the non-null, non-empty values |
| `EditProfile.CompactAppend` | client/src/screens/EditProfileScreen.js:158-171 | filtering keeps order: it distributes over concatenation |
| `EditProfile.Recent` | client/src/screens/EditProfileScreen.js:158-171 | at most three values, each non-empty and taken from one of the first three records, and every such value appears |
| `EditProfile.RecentOfFirstThree` | client/src/screens/EditProfileScreen.js:158-159 | only the three newest records feed a history list |
| `EditProfile.RecentNewestFirst` | client/src/screens/EditProfileScreen.js:158-171 | a history list keeps the records' order and repeated values: the newest record's non-empty value comes first, then the history of the rest |
| `EditProfile.EditProfileScreen.constructor` | client/src/screens/EditProfileScreen.js:25-41 | starts loading, with no records and no selection; the form holds the profile name and empty fields; the empty list is current for a well-keyed store |
| `EditProfile.EditProfileScreen.LoadRecords` | client/src/screens/EditProfileScreen.js:51-80 | keeps the query answer. With rows, it selects the first and fills event, location and date from it; with none, the selection and form stay. On failure it alerts and keeps everything. `loading` ends false, and a current list stays current |
| `EditProfile.EditProfileScreen.Mount` | client/src/screens/EditProfileScreen.js:44-48 | loads only when a user is signed in; otherwise nothing changes and the screen stays loading |
| `EditProfile.EditProfileScreen.SelectPhoto` | client/src/screens/EditProfileScreen.js:212-219 | the gallery is shown only for more than one record; tapping one of its photos selects it and leaves the form as it is |
| `EditProfile.EditProfileScreen.SetName` | client/src/screens/EditProfileScreen.js:241-245 | editing the name field changes the name only |
| `EditProfile.EditProfileScreen.SetEvent` | client/src/screens/EditProfileScreen.js:251-255 | editing the event field changes the event only |
| `EditProfile.EditProfileScreen.SetLocation` | client/src/screens/EditProfileScreen.js:261-265 | editing the location field changes the location only |
| `EditProfile.EditProfileScreen.SetDate` | client/src/screens/EditProfileScreen.js:271-275 | editing the date field changes the date only |
| `EditProfile.EditProfileScreen.HandleSave` | client/src/screens/EditProfileScreen.js:83-113 | with no selection it alerts `Please select a photo` and writes nothing. Otherwise it writes the payload of the form to the selected id only, alerts success or failure, goes back only on success, and ends with `saving` false; a current list stays current while the screen is shown |
| `EditProfile.EditProfileScreen.HandleDeleteAsWritten` | client/src/screens/EditProfileScreen.js:116-146 | cancelling changes nothing, and a store error only alerts. Otherwise exactly `recordId` is removed, then the records are reloaded; a failed reload keeps the old list |
| `EditProfile.EditProfileScreen.HandleDelete` | client/src/screens/EditProfileScreen.js:116-146 | as written, except that the deleted record is also dropped from the list before the reload. A current list stays current, and a delete through the control shown for the selected record always leaves the profile a record |
| `EditProfile.StaleListDeletesLastPhoto` | client/src/screens/EditProfileScreen.js:74-79 | with two records and failing reloads, the delete as written leaves both listed, the control stays shown, and a second delete leaves the profile with no record |
| `Capture.ViewOf` | client/src/screens/RecordScreen.js:11-79 | blank without a permission object; the prompt when not granted; the preview exactly when a non-empty photo uri is held (showing it and the description); otherwise the camera |
| `Capture.RecordScreen.constructor` | client/src/screens/RecordScreen.js:6-9 | no photo and an empty description |
| `Capture.RecordScreen.PermissionChanged` | client/src/screens/RecordScreen.js:6-24 | the permission hook's new value replaces the old one |
| `Capture.RecordScreen.TakePicture` | client/src/screens/RecordScreen.js:26-31 | the photo is stored only when the camera ref is mounted and the capture succeeds; a rejected capture keeps the previous photo; the description is never touched |
| `Capture.RecordScreen.HandleRetake` | client/src/screens/RecordScreen.js:33-36 | clears both the photo and the description, so a granted screen shows the camera again |
| `Capture.RecordScreen.HandleSubmit` | client/src/screens/RecordScreen.js:38-40 | changes nothing |
| `Capture.RecordScreen.SetPhotoText` | client/src/screens/RecordScreen.js:51-52 | editing the description changes the description only |

## Left out

- Spawning the engine (`arch -arm64 python3 …`), the Express server, `cors`, the 50 MB body limit, `listen` and `/hello`: process and server plumbing. The engine is a sequence of events.
- What Express does after the handler throws on a non-string `image` (its default error handler): the model only records that the handler threw.
- Console logging on every path: it changes no state.
- The engine's own stderr diagnostics (rekognition/aws_rekognition.py:32, 34 and 37, about building the client) are not modelled. The relay treats stderr as arbitrary chunks, which it collects into `errorOutput` and, on a non-zero exit, sends as `detail`.
- `JSON.parse` and `json.dumps` are not modelled as a grammar. Parsing is a function parameter. Printed records are `Report` values, not text.
- Chunk decoding (`data.toString()`): chunks are already strings, so a multi-byte character split across chunks is not modelled.
- The order and interleaving of process events: each event is one method call. Any order of calls is allowed, and each runs to completion.
- `detect_faces`, base64 decoding, `dotenv` and the unused `cv2` import: foreign calls. Their outcome is an input.
- `Confidence` and `BoundingBox` values are opaque numbers (`real`).
- Rekognition.Summarize: the `smile_confidence` default is the integer `0` in the code and `0.0` here, because the model has one numeric type for confidences.
- The record store's queries, updates and deletes: foreign. The store is a map from id to row, and the query answer is an input that must be correct. Row-level security is not modelled; updates and deletes select by id only.
- The order among records with equal `created_at` is whatever the store returns.
- Alert dialogs are reduced to the last alert shown, and the delete confirmation to a `confirmed` input. Navigation is reduced to `leftScreen`. `toLocaleDateString` and all rendering other than the visibility conditions are not modelled.
- Asynchrony in the screens: a save, load or delete runs to completion. `saving` and `loading` are observable only at the end, and a save racing a reload is not modelled.
- The app shell, the lookup screen and the settings screen, with all style sheets: UI composition or sign-out wrappers. The lookup screen shows fixed data and never filters by its search text, so roster grouping, tie-breaking and search are not modelled.

## Findings

| source | as written | input that shows it | evidently intended | confidence | as-written member | corrected member |
|---|---|---|---|---|---|---|
| client/src/screens/EditProfileScreen.js:74-79 | a failed reload after a successful delete (line 136) keeps `records`, which still lists the deleted record, so the delete control (line 307) stays shown | a profile with two records; delete one while the reload fails, select the other, delete it while the reload fails again | the delete control is shown only while the profile has more than one record, so its last photo cannot be deleted | not executed; medium | `EditProfile.StaleListDeletesLastPhoto` | `EditProfile.EditProfileScreen.HandleDelete` |
| rekognition/aws_rekognition.py:52 | `analyze_face` prints the raw detection response to stdout before `main` prints its JSON record | non-blank stdin, both credentials set, and `detect_faces` returning any response | stdout holds only the JSON record, which the relay parses as one document (server/src/app.js:71) | not executed; high | `CliWrapper.StrayPrintPrecedesDocument` | `CliWrapper.StdoutIsOneDocument` |
