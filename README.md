# R.O.A.D.S video upload and analysis, modelled in Dafny

R.O.A.D.S analyses traffic at an intersection from four videos, one per approach.
This project models the two halves of its upload-and-analyse workflow.

**The browser component `VideoUpload`** (a React component) does four things:
- It keeps a set of at most four video files with preview handles aligned to them.
- It keeps four numeric traffic parameters.
- On "Upload & Analyze" it:
  - checks the selection;
  - renames the files `<timestamp>_<index>_<safe name>`;
  - posts them to `/upload`;
  - posts the returned names and the parameters to `/process`;
  - shows the outcome, with busy flags raised and lowered around the two requests.
- It shows the results: a Batch CPS figure, and one card per file (an error card or a card with the file's metrics).

**The Flask server** has two endpoints:
- `/upload` checks the multipart form and saves the four files as `video1<ext>` … `video4<ext>`.
- `/process` validates its JSON body. It then runs one analysis per file name and collects each result, or the analysis's error message, in a map keyed by file name.

## Modules

- **`Strings`**: the decimal text of a natural number, parsing it back, and `str.join`.
- **`Wire`**: the values exchanged between client and server:
  - JSON, with an object kept as its ordered members and the last repeated key winning;
  - JavaScript property reads and truthiness;
  - files and form parts;
  - the outcome of a `fetch`.
- **`ClientFiles`**: the video filter, the cap of four, preview ids and URLs, and removal at a position.
- **`ClientSubmit`**, the pure specification of a submission:
  - the pre-flight checks, sanitising and renaming, and the process request body;
  - the error messages;
  - `Submit`/`Exchange`, which give the final error, the results and the ordered events (the busy-flag setter calls, in program order, with the two calls of the `finally` block as one event; and the requests sent).
- **`ClientResults`**:
  - `Object.entries`/`Object.values` of a parsed object: each key once, at its first position, holding its last value, with array-index keys first in ascending order;
  - the Batch CPS reduce, `safety_penalty ?? safety_penatly ?? 0`, the cards, and the results section that combines them.
- **`ClientComponent`**: the class `VideoUpload`. Its fields are the component state, and its methods are the event handlers, each proved against the functions above. A ghost `trace` records the events in program order: each busy-flag setter call and each request, at the point in the handler where it happens. The `finally` block's `setLoading(false)` and `setProcessing(false)` are recorded as one event. The trace is not the order of re-renders: React batches the setter calls and renders after the handler yields at an `await`, by which time the request has been sent.
- **`ServerUpload`**:
  - `getlist`, `os.path.splitext` for POSIX paths and the final names;
  - the endpoint's answer as a function;
  - the class `UploadFolder`, whose `stored` map is the `uploads` folder that `upload()` writes into.
- **`ServerProcess`**:
  - the validation of `/process` (Python `in` on the parsed body, the missing-key list in fixed order, the list-of-four check, the defaults);
  - the `as_completed` loop as a method over a completion order;
  - the response.
- **`Workflow`**: the two halves together. For example, the client's four files always pass `/upload`, the server's names replace the client's, and the process request the client builds is accepted with the client's own parameters.

### How the outside world is modelled

- `fetch` followed by `.json()` is a function parameter (`upload`, `process`) that returns a `Reply`: a status flag and an object body, or a thrown message.
- `Date.now()` is a natural-number parameter.
- `Number(...)`, including the JSON serialisation of its result, is a function parameter `coerce`.
- `secure_filename` is a function parameter `secure`.
- `run_analysis` is a function parameter `analyze` that returns a result or the exception's text.
- The order in which the thread pool's futures complete is a parameter: a permutation of the four positions.
- Object URLs are tokens numbered by a counter in the component.
- `file.save` is an update of the folder's `stored` map.

### When a card is an error card

A per-file error card is shown when `res.error` is truthy (videoUpload.jsx lines 326 and 333), not whenever the entry has an `error` member. The server stores a failed analysis as `{"error": str(e)}` (main.py lines 82-85). So a failure with an empty message gives a done card: its clear time, traffic score, green wave bonus and CPS are undefined, and its safety penalty falls back to 0. `Workflow.FailedAnalysisCard` states both cases.

React refuses to render a plain object as a child. So the heading throws when `results.intersection` is an object (line 309), an error card throws when its `error` is one (line 358), and a done card throws when its clear time, traffic score, safety penalty, green wave bonus or CPS is one (lines 337-354). An array is rendered item by item, so an array that holds an object throws too. `ClientResults.Renderable` says which values render; `CardOf` and `ResultsView` are None in these cases.

## Model

| member | source | states |
|---|---|---|
| Strings.NatToString | CC-SIH-2025/src/components/videoUpload.jsx:120 | the decimal text of a number is non-empty and all digits; a number below ten is its one digit |
| Strings.ParseNatToString | CC-SIH-2025/src/components/videoUpload.jsx:120 | reading the decimal text of a number back gives the number |
| Strings.NatToStringInjective | CC-SIH-2025/src/components/videoUpload.jsx:120 | distinct timestamps are written differently |
| Wire.Get | Backend/server/main.py:57 | a key lookup finds nothing exactly when no member has the key, and what it finds is the value of a member with that key |
| Wire.GetConcat | CC-SIH-2025/src/components/videoUpload.jsx:143-149 | in an object made of two member lists, a key of the later list takes the later value, and any other key takes the earlier one |
| Wire.GetUnrepeated | CC-SIH-2025/src/components/videoUpload.jsx:143-149 | a key that no later member repeats is read with its own value |
| Wire.Property | CC-SIH-2025/src/components/videoUpload.jsx:326 | reading a property throws exactly on null; on an object it is defined exactly when the key is present |
| ClientFiles.VideoFiles | CC-SIH-2025/src/components/videoUpload.jsx:54 | the kept files are exactly the candidates that exist and whose type starts with `video/`, no more of them than candidates |
| ClientFiles.NoVideoFiles | CC-SIH-2025/src/components/videoUpload.jsx:54-55 | nothing is kept exactly when no candidate is a video |
| ClientFiles.VideoFilesAppend | CC-SIH-2025/src/components/videoUpload.jsx:54 | filtering two selections laid end to end keeps the same files in the same order as filtering each |
| ClientFiles.Combine | CC-SIH-2025/src/components/videoUpload.jsx:61 | the new list is the first min(4, total) files of the old list followed by the added ones |
| ClientFiles.CombineKeepsExisting | CC-SIH-2025/src/components/videoUpload.jsx:61 | a list of at most four stays a prefix, and grows when something is added below the cap |
| ClientFiles.CombineAccumulates | CC-SIH-2025/src/components/videoUpload.jsx:61 | two additions in a row equal one addition of both |
| ClientFiles.FreshPreviews | CC-SIH-2025/src/components/videoUpload.jsx:69 | the new previews are aligned with the files (ids `${i}_${name}`, names), with distinct URLs minted from the counter on |
| ClientFiles.RemoveAt | CC-SIH-2025/src/components/videoUpload.jsx:80-84 | `splice(index, 1)` removes exactly that position and keeps the rest in order |
| ClientFiles.RenumberedAligned | CC-SIH-2025/src/components/videoUpload.jsx:86 | re-deriving the ids of aligned previews changes nothing |
| ClientFiles.RemoveKeepsAlignment | CC-SIH-2025/src/components/videoUpload.jsx:76-86 | after a removal the previews are aligned with the files again and each survivor keeps its URL |
| ClientFiles.RemoveKeepsUrls | CC-SIH-2025/src/components/videoUpload.jsx:80-86 | after a removal the URLs stay distinct and already minted |
| ClientFiles.PreviewId | CC-SIH-2025/src/components/videoUpload.jsx:69 | an id is the position's digits, `_`, then the file name, so it starts with a digit |
| ClientFiles.Renumbered | CC-SIH-2025/src/components/videoUpload.jsx:86 | re-deriving the ids keeps each preview's name and URL, position by position |
| ClientFiles.PreviewIdsDistinct | CC-SIH-2025/src/components/videoUpload.jsx:69 | the React keys of aligned previews differ pairwise |
| ClientSubmit.ZeroIsPresent | CC-SIH-2025/src/components/videoUpload.jsx:106-107 | the value 0, as a number or the text "0", passes the presence check |
| ClientSubmit.Preflight | CC-SIH-2025/src/components/videoUpload.jsx:99-111 | the submission goes ahead exactly with four files and all four parameters present; otherwise the first failing check's message |
| ClientSubmit.SafeName | CC-SIH-2025/src/components/videoUpload.jsx:119 | sanitising keeps the length, leaves only allowed characters and keeps every allowed character where it is |
| ClientSubmit.SafeNameIdempotent | CC-SIH-2025/src/components/videoUpload.jsx:119 | sanitising twice is sanitising once |
| ClientSubmit.SafeNameKeepsSafe | CC-SIH-2025/src/components/videoUpload.jsx:119 | a name of allowed characters is unchanged |
| ClientSubmit.UploadForm | CC-SIH-2025/src/components/videoUpload.jsx:118-125 | one `videos` part per file, in order, each with the renamed name and the original type and contents |
| ClientSubmit.RenamedName | CC-SIH-2025/src/components/videoUpload.jsx:120 | a renamed name starts with a digit of the timestamp, has `_` right after the timestamp, and is as long as its three parts and two separators |
| ClientSubmit.RenamedNameInjective | CC-SIH-2025/src/components/videoUpload.jsx:120 | a renamed name determines its timestamp, its position and the sanitised original name |
| ClientSubmit.RenamedNamesDistinct | CC-SIH-2025/src/components/videoUpload.jsx:116-122 | the renamed files of one submission have pairwise distinct names |
| ClientSubmit.ReplyError | CC-SIH-2025/src/components/videoUpload.jsx:134-136 | the thrown message is the reply's non-empty `error` text when there is one, else the fallback; never empty |
| ClientSubmit.Caught | CC-SIH-2025/src/components/videoUpload.jsx:162 | the shown error is the caught message, or 'Unknown error' when it is empty |
| ClientSubmit.RequiredInputsDistinct | CC-SIH-2025/src/components/videoUpload.jsx:104 | the four parameter names differ pairwise and none is `files` |
| ClientSubmit.ParamMembers | CC-SIH-2025/src/components/videoUpload.jsx:145-148 | one member per parameter, in order, holding `Number` of its input |
| ClientSubmit.ProcessBodyFields | CC-SIH-2025/src/components/videoUpload.jsx:143-149 | the process body (`ProcessBody`) has the upload reply's `files`, left out when that is undefined, and each parameter reads as its coerced input; it has one member per parameter plus `files` when present |
| ClientSubmit.Submit | CC-SIH-2025/src/components/videoUpload.jsx:95-167 | a submission ends with an empty error exactly when it keeps results, and it records no event exactly when the pre-flight checks stop it |
| ClientSubmit.Exchange | CC-SIH-2025/src/components/videoUpload.jsx:113-166 | the exchange ends with an empty error exactly when it keeps results |
| ClientSubmit.ExchangeEvents | CC-SIH-2025/src/components/videoUpload.jsx:113-166 | an exchange raises `loading`, sends the upload, and ends with both flags lowered; five events exactly when the upload succeeds, three otherwise |
| ClientSubmit.PreflightSendsNothing | CC-SIH-2025/src/components/videoUpload.jsx:99-111 | a rejected submission shows the check's message, keeps no results, sends nothing and raises no flag |
| ClientSubmit.UploadFailureStopsBeforeProcess | CC-SIH-2025/src/components/videoUpload.jsx:132-136 | when the upload fails or throws, no process request is sent, no results are kept, and the error is the server's message, 'Upload failed' or the thrown text |
| ClientSubmit.ProcessFailureReported | CC-SIH-2025/src/components/videoUpload.jsx:152-156 | when processing is refused, the error is the server's message or 'Processing failed', and no results are kept |
| ClientSubmit.SuccessKeepsReplyVerbatim | CC-SIH-2025/src/components/videoUpload.jsx:139-158 | on success the results are the process reply exactly and the error is empty; the process request is sent fourth and forwards the upload reply's `files` |
| ClientSubmit.StatusText | CC-SIH-2025/src/components/videoUpload.jsx:289 | the status reads Idle exactly when neither flag is raised, and Processing exactly when `processing` is |
| ClientSubmit.StatusSequence | CC-SIH-2025/src/components/videoUpload.jsx:113-166 | the statuses shown are none on rejection, Uploading then Idle when the upload fails, and Uploading, Processing, Idle otherwise (through the helpers `StoppedStatuses` and `CompletedStatuses`) |
| ClientSubmit.TriggerEnabledAfter | CC-SIH-2025/src/components/videoUpload.jsx:265 | events that touch no flag leave the trigger enabled |
| ClientSubmit.BusyWhileRequesting | CC-SIH-2025/src/components/videoUpload.jsx:163-166 | every request is sent while the trigger is disabled, and every submission ends with both flags lowered |
| ClientResults.EntriesOf | CC-SIH-2025/src/components/videoUpload.jsx:316-322 | `Object.entries` throws exactly on null; an object gives the entries of `ObjectEntries` (the rows below) |
| ClientResults.Keys | CC-SIH-2025/src/components/videoUpload.jsx:316-322 | the keys of a parsed object are exactly the keys of its members, each listed once |
| ClientResults.KeysInOrder | CC-SIH-2025/src/components/videoUpload.jsx:316-322 | those keys come in the order of their first occurrences, since a repeated key overwrites in place |
| ClientResults.Dedup | CC-SIH-2025/src/components/videoUpload.jsx:316-322 | one entry per key, holding the value of the last member with that key |
| ClientResults.CanonicalRoundTrip | CC-SIH-2025/src/components/videoUpload.jsx:316-322 | a canonical decimal key is the text of its own number, so two index keys with one number are one key |
| ClientResults.SortAscending | CC-SIH-2025/src/components/videoUpload.jsx:316-322 | the insertion sort puts index keys with distinct numbers in strictly ascending order (with `InsertAscending`, `InsertAbove` and `AscendingCons`), as a rearrangement of its input |
| ClientResults.SelectMembers | CC-SIH-2025/src/components/videoUpload.jsx:316-322 | splitting the entries by key kind keeps exactly the entries of that kind; `SelectKeepsOrder` keeps their relative order |
| ClientResults.ObjectEntriesMembers | CC-SIH-2025/src/components/videoUpload.jsx:316-322 | the entries list every key of the members once and no other key, each with the value of its last member |
| ClientResults.ObjectEntriesOrder | CC-SIH-2025/src/components/videoUpload.jsx:316-322 | array-index keys come first in ascending numeric order, then the other keys in the order they were first given |
| ClientResults.PlainObjectEntries | CC-SIH-2025/src/components/videoUpload.jsx:316-322 | members with distinct keys, none of them an array index, are listed exactly as given |
| ClientResults.IndexKeysFirstExample | CC-SIH-2025/src/components/videoUpload.jsx:322 | keys `b`, `10`, `2` are listed as `2`, `10`, `b` |
| ClientResults.ResultEntries | CC-SIH-2025/src/components/videoUpload.jsx:316 | `Object.entries(results.results)` throws exactly when `results` is absent or null |
| ClientResults.CpsTerm | CC-SIH-2025/src/components/videoUpload.jsx:316 | the summand `r.cps \|\| 0`: 0 for absent or null, the number for a number, and a failure for a null entry or a non-empty string |
| ClientResults.TotalAppend | CC-SIH-2025/src/components/videoUpload.jsx:316 | the running sum of two runs laid end to end is the sum of their sums |
| ClientResults.BatchScoreAppend | CC-SIH-2025/src/components/videoUpload.jsx:316 | the score of two runs of values is the sum of their scores |
| ClientResults.BatchScoreSingle | CC-SIH-2025/src/components/videoUpload.jsx:316 | the score of one value is its summand |
| ClientResults.BatchScore | CC-SIH-2025/src/components/videoUpload.jsx:316 | the figure exists exactly when every value's summand does; its partners are `BatchScoreIsSum`, `BatchScoreAppend` and `BatchScorePermutation` |
| ClientResults.BatchScoreOrderFree | CC-SIH-2025/src/components/videoUpload.jsx:316 | swapping two runs of values does not change the score |
| ClientResults.BatchScorePermutation | CC-SIH-2025/src/components/videoUpload.jsx:316 | any rearrangement of the values, as a multiset, gives the same score |
| ClientResults.ValueWithoutCpsAddsNothing | CC-SIH-2025/src/components/videoUpload.jsx:316 | an object without `cps` adds nothing to the score |
| ClientResults.ScoredTerm | CC-SIH-2025/src/components/videoUpload.jsx:316 | for a value the server writes, the summand is its cps number, missing or null as 0 |
| ClientResults.BatchScoreIsSum | CC-SIH-2025/src/components/videoUpload.jsx:316 | on such values the score equals the plain sum of their cps numbers, missing ones as 0 |
| ClientResults.SafetyPenalty | CC-SIH-2025/src/components/videoUpload.jsx:345 | the canonical key unless it is null or undefined, then the misspelt key under the same condition, then 0 |
| ClientResults.ZeroPenaltyKept | CC-SIH-2025/src/components/videoUpload.jsx:345 | a canonical penalty of 0 is shown as 0 |
| ClientResults.CardOf | CC-SIH-2025/src/components/videoUpload.jsx:322-359 | a card exists exactly when the entry is not null and every value the card shows renders (no plain object, no array holding one); it is an error card exactly when `error` is truthy, carries its file name, and displays the message or the five metrics of the entry |
| ClientResults.Cards | CC-SIH-2025/src/components/videoUpload.jsx:322-359 | one card per entry in order, exactly when every entry's card renders; an error card exactly for the entries whose `error` is truthy, each displaying its entry's values |
| ClientResults.ExampleBatch | CC-SIH-2025/src/components/videoUpload.jsx:316 | one score of 5.5 and one failed file give a score of 5.5, a done card and an error card |
| ClientResults.ResultsView | CC-SIH-2025/src/components/videoUpload.jsx:305-359 | the results section renders exactly when `results.intersection` renders, `videos_processed` is a list, `results.results` is present and non-null, and the figure and every card can be computed; the cards are those of the entries |
| ClientResults.ObjectHeadingBreaksRender | CC-SIH-2025/src/components/videoUpload.jsx:309 | an object `intersection` makes the section throw |
| ClientResults.ObjectMessageBreaksCard | CC-SIH-2025/src/components/videoUpload.jsx:358 | an object `error` makes its error card throw |
| ClientResults.ObjectMetricBreaksCard | CC-SIH-2025/src/components/videoUpload.jsx:337 | an object clear time, alone or inside an array, makes its done card throw |
| ClientResults.RepeatedKeyEntries | CC-SIH-2025/src/components/videoUpload.jsx:322 | an object naming one key twice has one entry, holding the later value |
| ClientResults.RepeatedNameExample | CC-SIH-2025/src/components/videoUpload.jsx:305-359 | a reply naming one file twice shows one card and a figure that counts only the later value |
| ClientComponent.VideoUpload.constructor | CC-SIH-2025/src/components/videoUpload.jsx:12-23 | the initial state: no files, previews or results, empty error, four empty parameters |
| ClientComponent.VideoUpload.HandleNewFiles | CC-SIH-2025/src/components/videoUpload.jsx:52-74 | with no video only the error changes; otherwise the files are combined, the previews are fresh, the results are cleared and the error is emptied; new URLs never reuse old ones |
| ClientComponent.VideoUpload.RemoveFile | CC-SIH-2025/src/components/videoUpload.jsx:76-88 | the position leaves both lists, survivors keep their order and URLs with re-derived ids, and results are cleared; out of range the lists stay |
| ClientComponent.VideoUpload.HandleInputChange | CC-SIH-2025/src/components/videoUpload.jsx:90-93 | the named field holds the typed text, and every other field keeps its value and its presence |
| ClientComponent.VideoUpload.Reset | CC-SIH-2025/src/components/videoUpload.jsx:274 | files, previews, results and error are cleared; the parameters are kept |
| ClientComponent.VideoUpload.HandleUploadAndProcess | CC-SIH-2025/src/components/videoUpload.jsx:95-167 | the handler ends with the error, results and events `Submit` gives, the files and parameters untouched and the trigger enabled; each event is recorded by the statement that causes it |
| ClientComponent.VideoUpload.Request | CC-SIH-2025/src/components/videoUpload.jsx:113-166 | the try/catch/finally ends with the error, results and events `Exchange` gives, with both flags lowered; the trace gains the `loading` write, the upload request, then what `ProcessStage` adds, then one event for the two `finally` setter calls |
| ClientComponent.VideoUpload.ProcessStage | CC-SIH-2025/src/components/videoUpload.jsx:139-158 | raising `processing`, the process request, and the outcome: a thrown or refused reply becomes the failure message, an accepted one the results |
| ServerProcess.Missing | Backend/server/main.py:53 | the missing list is no longer than the required list |
| ServerProcess.MissingExact | Backend/server/main.py:53 | the missing list holds exactly the required keys absent from the body, in the fixed order |
| ServerProcess.Validate | Backend/server/main.py:46-64 | unparsable gives 400 'Invalid JSON format'; missing keys give 400 'Missing fields: ' and the list; a non-dict crashes; acceptance only with a four-element `files` list |
| ServerProcess.FileListCheck | Backend/server/main.py:57-59 | with every key present, acceptance holds exactly when `files` is a list of four, and otherwise the reply is 400 'Exactly 4 filenames must be provided' |
| ServerProcess.AllPresentNoneMissing | Backend/server/main.py:53 | when every key is present, nothing is missing |
| ServerProcess.DefaultsUnreachable | Backend/server/main.py:61-64 | an accepted body has all four parameters, and each analysis parameter is the body's own value |
| ServerProcess.EntryOf | Backend/server/main.py:82-85 | a failed analysis is stored as `{"error": str(e)}` |
| ServerProcess.ResultMapEntries | Backend/server/main.py:66-85 | the result map (`ResultMap`) has every submitted name as a key and no other key, each mapped to that file's entry |
| ServerProcess.Collect | Backend/server/main.py:66-85 | the loop crashes exactly on an unhashable name; otherwise every name maps to its entry, and the key list holds each key once |
| ServerProcess.Process | Backend/server/main.py:44-94 | a rejection is answered with its status and error; a crash is a 500, and so are names of mixed kinds that `jsonify` cannot sort; otherwise 200, intersection A, the result map, and `videos_processed` listing each key once |
| ServerProcess.MixedNamesUnsortable | Backend/server/main.py:94 | names `"a.mp4"`, `1`, `"c.mp4"`, `"d.mp4"` cannot have their keys sorted, so that batch is a 500 |
| ServerProcess.TextNamesSortable | Backend/server/main.py:94 | names that are all text can always have their keys sorted |
| ServerProcess.DistinctNamesFourEntries | Backend/server/main.py:80-85 | four distinct names give four entries |
| ServerProcess.RepeatedNameCollapses | Backend/server/main.py:80-85 | a repeated name gives fewer than four entries |
| ServerProcess.MissingExampleKeys | Backend/server/main.py:53 | a body with only `files` and `platoon_weight` misses the other three keys, listed in the fixed order |
| ServerProcess.ExampleMembership | Backend/server/main.py:53 | which keys that body holds |
| ServerProcess.MissingExample | Backend/server/main.py:52-55 | the error text for that body |
| ServerUpload.GetList | Backend/server/main.py:108 | the files sent under the field, and only those |
| ServerUpload.GetListEmpty | Backend/server/main.py:105-108 | the field is absent exactly when no part is sent under it |
| ServerUpload.GetListAll | Backend/server/main.py:108 | a form sent entirely under the field gives back every file, in order |
| ServerUpload.RFind | Backend/server/main.py:120 | the found position is in range and holds the character |
| ServerUpload.RFindIsLast | Backend/server/main.py:120 | no later position holds the character |
| ServerUpload.Ext | Backend/server/main.py:120 | the extension is empty, or a suffix of the path that starts with a dot |
| ServerUpload.ExtHasOneDot | Backend/server/main.py:120 | an extension holds no further dot and no separator |
| ServerUpload.ExtExamples | Backend/server/main.py:120 | `clip.mov` gives `.mov`, while `.mp4` and `video` give no extension |
| ServerUpload.FinalName | Backend/server/main.py:121 | a final name starts with `video` and has at least seven characters |
| ServerUpload.FinalNameShape | Backend/server/main.py:120-121 | a final name is `video`, the position's digit, then the extension or `.mp4` |
| ServerUpload.StoredNames | Backend/server/main.py:113-125 | one stored name per file |
| ServerUpload.StoredNameAt | Backend/server/main.py:113-121 | stored name k is the final name for position k+1 and file k's secured name |
| ServerUpload.UploadOutcome | Backend/server/main.py:102-130 | no `videos` part, a count other than 4 and an empty file name are each 400 with their message; 200 exactly otherwise, listing the stored names |
| ServerUpload.SavedCount | Backend/server/main.py:109-124 | nothing is written on a bad count; otherwise every file before the first nameless one is written |
| ServerUpload.FirstNameless | Backend/server/main.py:113-115 | every file before the position has a name, and the file at it has none |
| ServerUpload.FirstNamelessIs | Backend/server/main.py:113-115 | that position is determined by those two facts (the loop's steps to it are `NamedStep` and `NamelessAt`) |
| ServerUpload.Writes | Backend/server/main.py:122-124 | one write per file |
| ServerUpload.FinalNamesDiffer | Backend/server/main.py:121 | final names for different positions differ |
| ServerUpload.StoredNamesDistinct | Backend/server/main.py:113-125 | the stored names are pairwise distinct whatever the client sent |
| ServerUpload.StoredNameShape | Backend/server/main.py:118-121 | stored name k is `video`, k+1, then the secured name's extension or `.mp4`; nothing else of the client's name survives |
| ServerUpload.StoredNamesOnlyByExtension | Backend/server/main.py:118-121 | files whose secured names have the same extensions get the same stored names |
| ServerUpload.SavesKeys | Backend/server/main.py:124 | the folder entries are exactly the written paths (one write at a time through `SavesStep` and `MergeUpdate`) |
| ServerUpload.SavesDistinct | Backend/server/main.py:124 | writes to distinct paths leave one entry each, holding what was written there |
| ServerUpload.WritesDistinct | Backend/server/main.py:122-124 | the four writes of an upload go to four different paths, so no file overwrites another |
| ServerUpload.SaveStep | Backend/server/main.py:113-125 | one turn of the loop extends the names and the writes by the next file's final name and write |
| ServerUpload.UploadFolder.constructor | Backend/server/main.py:99-100 | the folder starts empty |
| ServerUpload.UploadFolder.Upload | Backend/server/main.py:102-130 | the answer is `UploadOutcome`; the folder gains the files written before the first nameless one, under their final names |
| ServerUpload.UploadFolder.SaveNamed | Backend/server/main.py:113-125 | the loop completes exactly when every file has a name, and then lists every stored name in order; the folder gains the files up to the first nameless one |
| Workflow.JsonNames | Backend/server/main.py:127-130 | each name as a JSON string, in order |
| Workflow.JsonNamesSortable | Backend/server/main.py:94 | the client's names, sent as JSON strings, are keys `jsonify` can sort |
| Workflow.JsonNamesDistinct | Backend/server/main.py:127-130 | distinct names stay distinct as JSON strings |
| Workflow.UploadReply | Backend/server/main.py:127-130 | `ok` exactly for a 2xx status; the body's `error` or `files` as the endpoint returned it |
| Workflow.ClientFormReceived | CC-SIH-2025/src/components/videoUpload.jsx:124-125 | the server receives the client's renamed files, in order |
| Workflow.ClientUploadAccepted | Backend/server/main.py:105-130 | the client's four files always pass `/upload`, which answers 200 with the stored names |
| Workflow.ServerNamesReplaceClientNames | Backend/server/main.py:121 | no stored name equals any renamed name from the client |
| Workflow.FinalNameNotRenamed | Backend/server/main.py:121 | a final name never equals a client's renamed name |
| Workflow.ClientProcessRequestAccepted | CC-SIH-2025/src/components/videoUpload.jsx:143-149 | after a real upload the client's process request is accepted, with the server's names and the client's coerced parameters |
| Workflow.ProcessBodyAccepted | Backend/server/main.py:52-64 | any upload reply with four `files` gives a process body that is accepted with those names and the coerced parameters |
| Workflow.ClientBatchHasFourEntries | Backend/server/main.py:80-85 | with the server's names `/process` never crashes on a key, and it returns four entries |
| Workflow.FailedAnalysisCard | CC-SIH-2025/src/components/videoUpload.jsx:326-359 | a failed analysis shows as an error card, with its message, exactly when the message is not empty; with an empty message it is a done card with undefined metrics and a safety penalty of 0 |
| Workflow.FailedAnalysisScoresNothing | CC-SIH-2025/src/components/videoUpload.jsx:316 | a failed analysis adds nothing to the score |

## Left out

- `Backend/tracking.py` and the internals of `run_analysis` (the detector, the OpenCV calls and the floating-point scores) are not part of this model. The analysis is a function parameter, and a failure is its error text.
- The thread pool runs in parallel. The model keeps only the completion order, as a parameter. The order of `videos_processed` follows that order and is not stated.
- `secure_filename` and `Number(...)` are function parameters. The NaN a non-numeric text gives, and its JSON serialisation as null, are left to `coerce`.
- The Batch CPS figure is summed over reals. Floating-point rounding and the `toFixed(1)` formatting are not modelled. `BatchScoreOrderFree` and `BatchScorePermutation` hold for these real sums; double-precision addition is not associative, so they hold only up to rounding.
- `ClientSubmit.ReplyError`: a truthy non-string `error` in a reply (a number, say) has its text shown in JavaScript. The model uses the fallback message instead, because JavaScript's number-to-text conversion is not modelled.
- Reply bodies are JSON objects. A body that is not an object, or that fails to parse (Flask's HTML error page), is a thrown message.
- Flask's own 500 page for an uncaught exception is the body `InternalError`, with no content.
- Python dict keys are compared as JSON values. Python's `True == 1` identity of keys is not modelled.
- `jsonify` sorts keys, and it serialises the `results` map. The model keeps of this step only whether the sort succeeds: it succeeds exactly when all keys are text, or all are numbers and bools, or the only key is None (`SortableKeys`). The map itself is the model's answer. The client reads whatever object it receives through `ObjectEntries`. The JSON text of the map in between is not modelled.
- Strings are sequences of characters. UTF-16 code units and Unicode are not distinguished.
- The `useEffect` cleanup and `URL.revokeObjectURL` release browser resources and are not modelled. Object URLs are counter tokens that are never released.
- `handleDrop` and `handleFileChange` only pass the dropped or chosen files on to `handleNewFiles`, which is modelled (its candidates are the files, a missing entry as None). `handleDragOver` only prevents the default action.
- `removeFile` with a negative index is not modelled: the index is a natural number.
- The asynchronous handler runs to completion as one step. Interleaving with other events while a request is pending, such as a second click (the trigger is disabled) or a file drop, is not modelled.
- `API_BASE` resolution, `console.error`, `alert`, `ChangeScreen` and the Open Dashboard and Export links are not modelled.
- Layout is not modelled: the `Metric` component, the animations and the rest of the JSX.
- `ClientResults.ResultsView`: the heading keeps `results.intersection` and the `videos_processed` list as values. The text `join(', ')` makes of them is not modelled, and neither is the text of a card's metrics.
- `os.makedirs` creating the upload folder is not modelled. `file.save` is the update of the folder map, and a failed write is not modelled.
