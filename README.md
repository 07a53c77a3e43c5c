# cswx tool shell — a Dafny model of its core

cswx is a browser shell for small text tools. Tools register with a
registry that the UI lists, optionally filtered by category. A tool keeps a
newest-first, size-capped history of its states in the browser's key/value
store. It walks that history with an undo/redo cursor, and it hands heavy
string work to a background worker through a request/reply protocol with
`msg-<n>` correlation ids. This project models that core and proves what its
code promises. The core consists of:

- the worker's message dispatcher (`public/worker.js`)
- the page-side `WorkerManager`, which correlates requests with replies, and
  the lazily built singleton behind `getWorker`/`terminateWorker`
  (`src/utils/worker.ts`)
- `HistoryStorage` and the `setStorageItem`/`getStorageItem`/`removeStorageItem`
  helpers (`src/utils/storage.ts`)
- the `useHistory` cursor (`src/hooks/useHistory.ts`)
- the `ToolRegistry` (`src/registry/ToolRegistry.ts`)
- `detectFileType` (`src/utils/file.ts`)
- `checkInputSize` (`src/utils/debounce.ts`)
- `formatTimestamp` and the default entry preview of the history sidebar
  (`src/components/shared/HistorySidebar.tsx`)
- the demo tool's text processing, local fallback, save guard, history
  handlers and entry label (`src/tools/DemoTool.tsx`)

Layout, one module per file:

| file | module | models |
|---|---|---|
| `wrappers.dfy` | `Wrappers` | `Option` |
| `sequences.dfy` | `Sequences` | reverse, filter with its order and subsequence facts, `findIndex`, `splice` clamping |
| `text.dfy` | `Text` | decimal rendering of the id counter, ASCII case mapping |
| `messages.dfy` | `Messages` | `WorkerMessage`/`WorkerResponse` and the JavaScript values they carry |
| `worker_script.dfy` | `WorkerScript` | the worker's `message` handler |
| `worker_manager.dfy` | `WorkerManagement`, `WorkerManagementClient` | `WorkerManager` as a class, the `workerInstance` singleton, and caller scenarios |
| `storage.dfy` | `Storage` | the key/value store, the three helpers, `HistoryStorage` as a class |
| `use_history.dfy` | `UseHistory` | cursor step functions, their lemmas, and the hook as a class |
| `history_client.dfy` | `HistoryClient` | the history scenarios of the repository's tests |
| `tool_registry.dfy` | `Registry` | `ToolRegistry` as a class over its insertion-ordered map |
| `file_type.dfy` | `FileType` | `detectFileType` |
| `input_size.dfy` | `InputSize` | `checkInputSize` |
| `history_sidebar.dfy` | `HistorySidebar` | `formatTimestamp`, `defaultRenderEntry` |
| `demo_tool.dfy` | `Demo` | the demo tool as a class |

Modelling choices:

- **Promises become a log.** Every call of a stored `resolve` or `reject`
  appends a `Settlement(id, outcome)` to the manager's `settlements` field.
  The `Map` of pending entries becomes `pending`, the sequence of its keys
  in insertion order. That is the order `forEach` visits them in.
- **The worker becomes data.** It is an availability flag plus the list
  `sent` of messages handed to it. A reply is delivered by calling
  `HandleMessage` with a `WorkerResponse`, which is what the worker script's
  `Respond` builds.
- **Parameters stand in for the environment.** Whether `new Worker(...)`
  succeeds is the `canCreate` parameter. Ids and time stamps that
  `Date.now()` and `Math.random()` generate are the `id`/`timestamp`
  parameters. The current time of `formatTimestamp` is `now`. The output of
  `toLocaleDateString()` is `localeDate`. The engine's `TypeError` message
  is `typeErrorText`.
- **`localStorage` is an ideal map** from keys to values as `JSON.parse`
  sees them. A key whose text is empty or does not parse holds
  `Unreadable`, which reads back as the default.
- **React state is class fields.** The hook's and the demo tool's
  `useState` cells are fields of `HistoryHook` and `DemoTool`. Each handler
  runs against the current state, one call after another.

Where the code and the surrounding description differ, the model follows
the code:

- `terminate` rejects pending requests even when the worker was already
  gone. Because the table is empty then, that changes nothing.
- `defaultRenderEntry` appends "..." only when the input was cut, which
  means more than 50 characters.
- `maxEntries: 0` falls back to 50 (`options.maxEntries || 50`).
- A negative cap makes `splice` keep all but the last `-max` entries.

## Model

| member | source | states |
|---|---|---|
| `WorkerScript.Respond` | public/worker.js:1-40 | exactly one reply that echoes the request id; the type is "success" precisely when the operation name is one of the four known ones and nothing throws: neither a missing payload, nor, under `reverse`, `uppercase` and `lowercase`, a `payload.text` that is not a string; a success carries no error; an error carries `undefined` as its result and a message; an unknown name yields "Unknown operation type: <name>", and a known one that throws yields the `TypeError`'s message |
| `WorkerScript.FaultMessage` | public/worker.js:33-38 | the `error.message` of the catch: "Unknown operation type: " followed by the name, or the `TypeError`'s text |
| `WorkerScript.OnText` | public/worker.js:9-17 | a string method applied to `payload.text` yields its result exactly when there is a payload whose `text` is a string, and throws a `TypeError` otherwise |
| `WorkerScript.Compute` | public/worker.js:7-26 | an unknown name throws "unknown operation"; a known one throws exactly when `Throws` says, and then with a `TypeError`; `reverse` yields the reversed text and `process` the payload's `text` |
| `WorkerScript.ProcessHeavyOperation` | public/worker.js:42-44 | `process` hands back `payload.text` unchanged, and throws when the payload is missing |
| `WorkerScript.ReverseReply` | public/worker.js:8-10 | `reverse` replies with the reversed text, and reversing the reply again gives the request's text back |
| `WorkerScript.ProcessReply` | public/worker.js:20-22 | `process` succeeds with the payload's `text`, whatever it holds (including `undefined`) |
| `WorkerScript.Scenarios` | public/worker.js:7-38 | "abc" reversed is "cba"; an unknown operation yields an error reply naming it |
| `WorkerManagement.MsgId` | src/utils/worker.ts:67 | ids have the form `msg-<n>` |
| `WorkerManagement.MsgIdInjective` | src/utils/worker.ts:67 | distinct counter values give distinct ids |
| `WorkerManagement.NextIdIsNew` | src/utils/worker.ts:67-68 | the id issued next was never issued before, so it cannot overwrite a pending entry |
| `WorkerManagement.Settle` | src/utils/worker.ts:45-49 | a "success" reply resolves with its result; any other reply rejects with its error text, or with "Worker error" when that text is absent or empty |
| `WorkerManagement.RejectAll` | src/utils/worker.ts:54-56 | rejecting a list of ids yields one rejection per id, in the same order, all with the same message |
| `WorkerManagement.OutcomeOf` | src/utils/worker.ts:45-56 | how the promise of an id has settled: nothing exactly when the id was never settled |
| `WorkerManagement.OutcomeOfSkip` | src/utils/worker.ts:45-56 | a later settlement of another id does not change how an id settled |
| `WorkerManagement.OutcomeOfRejectAll` | src/utils/worker.ts:54-56 | after rejecting a list of ids with one message, each of them has settled as a rejection with that message |
| `WorkerManagement.WorkerManager.constructor` | src/utils/worker.ts:25-33 | a new manager has an empty table and a zero counter; whether its worker exists is whether creation succeeded |
| `WorkerManagement.WorkerManager.PostMessage` | src/utils/worker.ts:60-76 | without a worker, the promise is rejected at once with "Worker not available" and nothing changes; otherwise the request goes out under a fresh `msg-<counter>` id, the counter advances and the id becomes pending; the table invariant (every issued id is pending or settled exactly once) is kept |
| `WorkerManagement.WorkerManager.HandleMessage` | src/utils/worker.ts:35-50 | a reply for an id that is not pending changes nothing; a reply for a pending id removes that id's first (and only) slot from the table, keeping the others in order, and settles it once, as `Settle` says; afterwards the id is not pending; the invariant is kept |
| `WorkerManagement.WorkerManager.HandleError` | src/utils/worker.ts:52-58 | every pending request is rejected with "Worker error", in insertion order, and the table is emptied |
| `WorkerManagement.WorkerManager.Terminate` | src/utils/worker.ts:78-87 | afterwards there is no worker, every pending request is rejected with "Worker terminated" in insertion order, and the table is empty; a second call adds no settlement |
| `WorkerManagement.WorkerManager.RejectPending` | src/utils/worker.ts:83-86 | the `forEach(reject)` then `clear()` loop appends exactly one rejection per pending id, in order, and keeps the invariant |
| `WorkerManagement.WorkerHost.constructor` | src/utils/worker.ts:90 | the page starts with no shared manager |
| `WorkerManagement.WorkerHost.GetWorker` | src/utils/worker.ts:90-97 | returns the existing manager; otherwise builds one for "/cswx/worker.js" and remembers it |
| `WorkerManagement.WorkerHost.TerminateWorker` | src/utils/worker.ts:99-104 | terminates the current manager, rejecting its pending requests with "Worker terminated" and leaving it without a worker, its counter and sent messages as they were; then forgets it |
| `WorkerManagement.PostKeepsValid` | src/utils/worker.ts:67-75 | issuing the next id, recording it as pending and sending the request keeps the table invariant |
| `WorkerManagement.IssueKeepsValid` | src/utils/worker.ts:67-71 | adding the freshly issued id to the pending ids keeps them distinct, unsettled, and covering every issued id |
| `WorkerManagement.SettleOneKeepsValid` | src/utils/worker.ts:37-49 | removing one pending id and settling it keeps every issued id pending or settled, and none both |
| `WorkerManagement.DropKeepsDistinct` | src/utils/worker.ts:43 | deleting one slot from a list of distinct ids keeps it distinct and removes exactly that id |
| `WorkerManagement.RejectAllKeepsValid` | src/utils/worker.ts:54-56 | rejecting every pending id and clearing the table keeps every issued id settled exactly once |
| `WorkerManagementClient.FirstIdsDiffer` | src/utils/worker.ts:67 | the first two ids are `msg-0` and `msg-1`, which differ |
| `WorkerManagementClient.WorkerReplies` | public/worker.js:7-32 | the worker script answers a `reverse` request with the reversed text and a `process` request with its text, both as successes under the request's id |
| `WorkerManagementClient.PostTwo` | src/utils/worker.ts:60-76 | two requests posted to a fresh manager wait under `msg-0` and `msg-1`, with nothing settled |
| `WorkerManagementClient.OutOfOrderReplies` | src/utils/worker.ts:35-50 | two requests answered by the worker script in the opposite order each settle with their own reply; a repeated reply is dropped |
| `WorkerManagementClient.TerminateThenPost` | src/utils/worker.ts:60-87 | `terminate` rejects the pending request with "Worker terminated", and a later request is rejected at once with "Worker not available" |
| `Storage.GetStorageItem` | src/utils/storage.ts:86-94 | a key holding a parsed value reads as that value; a missing key, or one whose text is empty or does not parse, reads as the default |
| `Storage.Added` | src/utils/storage.ts:39-54 | the stored list is always a prefix of the new entry followed by the old list; with a non-negative cap its length is the smaller of the cap and the old length plus one, with a negative cap it loses `-cap` entries from the end (down to none) |
| `Storage.SetStorageItem` | src/utils/storage.ts:78-84 | the key now reads back as the value, and every other key reads as before |
| `Storage.RemoveStorageItem` | src/utils/storage.ts:96-98 | the key is gone, so it reads as the default; other keys are untouched |
| `Storage.SetThenGet` | src/utils/storage.ts:78-94 | a set followed by a get of the same key returns the value set; a get of another key is unaffected |
| `Storage.EffectiveMax` | src/utils/storage.ts:17 | the cap is the given one, or 50 when it is missing or 0 |
| `Storage.AddedShape` | src/utils/storage.ts:39-54 | with a cap of at least 1: the new entry comes first, the old entries follow in order, and the length is the smaller of the cap and the old length plus one |
| `Storage.AddedNegativeCap` | src/utils/storage.ts:49-51 | with a negative cap, `splice` keeps the first entries of the grown list, all but the last `-cap` of them (none when there are fewer) |
| `Storage.FindById` | src/utils/storage.ts:61 | finds nothing exactly when no entry has the id; otherwise the first entry with that id |
| `Storage.WithoutId` | src/utils/storage.ts:65 | keeps exactly the entries whose id differs |
| `Storage.WithoutIdOrder` | src/utils/storage.ts:64-67 | removal keeps the other entries in their order, leaves the list unchanged when the id is absent, and afterwards the id is not found |
| `Storage.HistoryStorage.constructor` | src/utils/storage.ts:16-19 | the cap is `maxEntries`, or 50 when it is missing or 0 |
| `Storage.HistoryStorage.GetAll` | src/utils/storage.ts:21-29 | an absent key reads as the empty list |
| `Storage.HistoryStorage.Add` | src/utils/storage.ts:39-54 | the stored list becomes the new entry followed by the old list, cut to the cap; no other key changes |
| `Storage.HistoryStorage.Get` | src/utils/storage.ts:60-62 | finds the first entry of the list with the id, and finds nothing exactly when no entry has the id |
| `Storage.HistoryStorage.Remove` | src/utils/storage.ts:64-67 | afterwards no entry has the id; the stored list is the old one without the entries with that id |
| `Storage.HistoryStorage.Clear` | src/utils/storage.ts:69-71 | the key is removed, so the list reads as empty and the count is 0 |
| `Storage.HistoryStorage.GetCount` | src/utils/storage.ts:73-75 | the count is the length of the list |
| `UseHistory.InitialIndex` | src/hooks/useHistory.ts:34-40 | the first cursor is 0 when undo/redo is on and entries exist, and -1 otherwise, which satisfies the cursor invariant |
| `UseHistory.DataAt` | src/hooks/useHistory.ts:65 | `entries[i]?.data` is present exactly when `i` is a position of the list |
| `UseHistory.UndoStep` | src/hooks/useHistory.ts:59-66 | the cursor moves one entry older exactly when `canUndo` holds and otherwise stays; data comes back only on such a move, and it is the data of the entry moved to |
| `UseHistory.RedoStep` | src/hooks/useHistory.ts:68-75 | the cursor moves one entry newer exactly when `canRedo` holds and otherwise stays; data comes back only on such a move, and it is the data of the entry moved to |
| `UseHistory.SelectStep` | src/hooks/useHistory.ts:77-85 | with undo/redo on and the id listed, the cursor goes to the first entry with that id; otherwise it stays |
| `UseHistory.UndoSpec` | src/hooks/useHistory.ts:59-66 | undo moves one entry older and returns its data exactly when `canUndo` holds, and otherwise returns nothing and stays; it keeps the invariant |
| `UseHistory.RedoSpec` | src/hooks/useHistory.ts:68-75 | redo moves one entry newer and returns its data exactly when `canRedo` holds, and otherwise returns nothing and stays; it keeps the invariant |
| `UseHistory.UndoThenRedo` | src/hooks/useHistory.ts:59-75 | a successful undo followed by redo returns to the starting cursor and its entry's data |
| `UseHistory.RedoThenUndo` | src/hooks/useHistory.ts:59-75 | a successful redo followed by undo returns to the starting cursor and its entry's data |
| `UseHistory.SelectSpec` | src/hooks/useHistory.ts:77-85 | selection moves the cursor to the first entry with that id when the id is listed and undo/redo is on, and otherwise leaves it; it keeps the invariant |
| `UseHistory.HistoryHook.constructor` | src/hooks/useHistory.ts:23-40 | defaults are a cap of 50 and undo/redo on; the entries are what is stored; the cursor starts as `InitialIndex` says |
| `UseHistory.HistoryHook.Refresh` | src/hooks/useHistory.ts:42-45 | re-reads the stored list and leaves the cursor |
| `UseHistory.HistoryHook.Add` | src/hooks/useHistory.ts:47-57 | the store maps the hook's key to the new list and is otherwise unchanged; the list is the stored list with the new entry first; the cursor goes to 0 when undo/redo is on |
| `UseHistory.HistoryHook.Undo` | src/hooks/useHistory.ts:59-66 | returns and moves as `UndoStep` says; the list is unchanged |
| `UseHistory.HistoryHook.Redo` | src/hooks/useHistory.ts:68-75 | returns and moves as `RedoStep` says; the list is unchanged |
| `UseHistory.HistoryHook.Select` | src/hooks/useHistory.ts:77-85 | moves as `SelectStep` says and keeps the invariant |
| `UseHistory.HistoryHook.Clear` | src/hooks/useHistory.ts:87-91 | removes the stored key; the list is empty and the cursor is -1 |
| `UseHistory.HistoryHook.CanUndoNow` | src/hooks/useHistory.ts:93 | under the invariant, `canUndo` holds exactly when `undo()` would return data |
| `UseHistory.HistoryHook.CanRedoNow` | src/hooks/useHistory.ts:94 | under the invariant, `canRedo` holds exactly when `redo()` would return data |
| `HistoryClient.UndoThenRedoScenario` | src/hooks/useHistory.test.ts:22-81 | after saving "first" then "second", undo returns "first", redo returns "second", and selecting the second listed entry puts the cursor at 1 |
| `HistoryClient.CapScenario` | src/utils/storage.test.ts:18-31 | with a cap of 3, four saves leave three entries, newest first |
| `HistoryClient.RemoveScenario` | src/utils/storage.test.ts:34-44 | removing the only entry by its id leaves none |
| `Registry.Lookup` | src/registry/ToolRegistry.ts:30-32 | finds nothing exactly when no tool has the id; otherwise a registered tool with that id |
| `Registry.LookupUnique` | src/registry/ToolRegistry.ts:30-32 | with distinct ids, looking up a tool's id finds that tool |
| `Registry.IsEnabled` | src/registry/ToolRegistry.ts:35-40 | the callback of `getAll`'s filter: a tool is listed unless its flag says disabled |
| `Registry.Enabled` | src/registry/ToolRegistry.ts:34-41 | keeps exactly the tools without an `isEnabled` flag or whose flag says enabled |
| `Registry.EnabledIn` | src/registry/ToolRegistry.ts:43-45 | keeps exactly the enabled tools of the category |
| `Registry.EnabledOrdered` | src/registry/ToolRegistry.ts:34-41 | the enabled tools keep registration order and their ids stay distinct |
| `Registry.EnabledInIsSubsequence` | src/registry/ToolRegistry.ts:43-45 | the category listing is an ordered part of the enabled listing, and filtering it by the category again changes nothing |
| `Registry.ToolRegistry.constructor` | src/registry/ToolRegistry.ts:16 | a new registry holds no tools |
| `Registry.ToolRegistry.Register` | src/registry/ToolRegistry.ts:18-24 | an id already registered keeps its first tool; a new id is appended, so lookups find the new tool; ids stay distinct |
| `Registry.ToolRegistry.Unregister` | src/registry/ToolRegistry.ts:26-28 | the id is no longer found; every other id is found as before |
| `Registry.UnregisterKeeps` | src/registry/ToolRegistry.ts:26-32 | deleting one id does not change what any other id looks up to |
| `Registry.ToolRegistry.Get` | src/registry/ToolRegistry.ts:30-32 | finds nothing exactly when the id was not registered |
| `Registry.ToolRegistry.GetAll` | src/registry/ToolRegistry.ts:34-41 | exactly the registered tools that are enabled |
| `Registry.ToolRegistry.GetAllByCategory` | src/registry/ToolRegistry.ts:43-45 | exactly those tools of `getAll()` whose category matches |
| `FileType.LastIndexOf` | src/utils/file.ts:109 | -1 exactly when the character is absent; otherwise its last position |
| `FileType.Extension` | src/utils/file.ts:109 | the extension is a suffix of the name; the whole name when it has no '.', otherwise a '.' followed by dot-free text |
| `FileType.DetectFileType` | src/utils/file.ts:92-111 | only a name containing a '.' can be "text" |
| `FileType.LastDot` | src/utils/file.ts:109 | when a dot has no later dot, the extension is the suffix from that dot |
| `FileType.DetectFileTypeSpec` | src/utils/file.ts:92-111 | "text" exactly when the name has a last dot and the lower-cased suffix from it is one of the fourteen listed extensions |
| `FileType.NoDotIsBinary` | src/utils/file.ts:109-110 | a name without a dot is "binary": the whole name, never one of the listed extensions, is compared |
| `FileType.UpperCaseExtension` | src/utils/file.ts:109-110 | the comparison ignores case: "X.TXT" is text |
| `FileType.OnlyLastSuffix` | src/utils/file.ts:109-110 | only the last suffix counts: "a.txt.zip" is binary |
| `FileType.UnlistedExtensions` | src/utils/file.ts:93-108 | .png, .pdf and .zip are not listed |
| `FileType.ListedShape` | src/utils/file.ts:93-108 | every listed extension is a dot followed by dot-free, lower-case text |
| `FileType.ListedIsText` | src/utils/file.ts:92-111 | any name ending in a listed extension is text |
| `FileType.TextExamples` | src/utils/file.test.ts:7-8 | test.txt and data.json are text |
| `FileType.SourceTextExamples` | src/utils/file.test.ts:9-10 | style.css and script.js are text |
| `FileType.BinaryExamples` | src/utils/file.test.ts:14-16 | image.png, document.pdf and archive.zip are binary |
| `InputSize.Utf8Width` | src/utils/debounce.ts:29 | a character takes one to four bytes, and one exactly when it is ASCII |
| `InputSize.Utf8Length` | src/utils/debounce.ts:29 | the byte size lies between the character count and four times it |
| `InputSize.AsciiLength` | src/utils/debounce.ts:29 | ASCII text is one byte per character |
| `InputSize.CheckInputSize` | src/utils/debounce.ts:20-38 | the size is the text's byte length; `isWarning` holds exactly above 100000 bytes and `isLimit` exactly above 5000000 |
| `InputSize.LimitImpliesWarning` | src/utils/debounce.ts:20-34 | the limit flag never holds without the warning flag |
| `InputSize.ShortInputIsQuiet` | src/utils/debounce.ts:29-34 | text of at most 25000 characters raises neither flag |
| `InputSize.Examples` | src/utils/debounce.test.ts:22-35 | 150000 'x' raise the warning but not the limit; "Hello World" is 11 bytes and raises neither |
| `HistorySidebar.FormatTimestamp` | src/components/shared/HistorySidebar.tsx:25-39 | under a minute old (or in the future) reads "Just now"; under an hour reads the whole minutes and "m ago"; under a day the whole hours and "h ago"; a day or more the locale date |
| `HistorySidebar.AgeOf` | src/components/shared/HistorySidebar.tsx:28-38 | the four age bands are disjoint and cover every difference: under a minute, under an hour (1-59 minutes), under a day (1-23 hours), older |
| `HistorySidebar.FormatTimestampExamples` | src/components/shared/HistorySidebar.tsx:25-39 | under a minute reads "Just now"; exactly one minute reads "1m ago"; five hours reads "5h ago"; every age of a day or more reads as the locale date |
| `HistorySidebar.DefaultPreview` | src/components/shared/HistorySidebar.tsx:41-50 | an input of at most 50 characters is shown whole; a longer one is shown as its first 50 characters plus "..."; other data shows at most the first 50 characters of its JSON text |
| `Demo.Operation.Name` | src/tools/DemoTool.tsx:17 | the tool's operations are "reverse", "uppercase" and "lowercase" |
| `Demo.Fallback` | src/tools/DemoTool.tsx:49-56 | the local fallback reverses, upper-cases or lower-cases for those names and leaves the text unchanged for any other; the length is kept |
| `Demo.WorkerAgreesWithFallback` | src/tools/DemoTool.tsx:44-57 | for the tool's three operations, the worker's reply resolves to the same text the fallback computes |
| `Demo.WorkerAnswersStrings` | src/tools/DemoTool.tsx:45-46 | a successful reply to a string payload is a string, so `result as string` holds |
| `Demo.EntryLabel` | src/tools/DemoTool.tsx:188-191 | the label is the operation, ": ", and the input, cut to 30 characters plus "..." when it is longer |
| `Demo.DemoTool.constructor` | src/tools/DemoTool.tsx:22-34 | the state starts empty with "reverse"; the history uses key "demo-tool-history", a cap of 20 and undo/redo on |
| `Demo.DemoTool.ProcessText` | src/tools/DemoTool.tsx:36-44 | the call up to its `await`: empty text clears the output and leaves the host and its manager untouched, so nothing is sent; otherwise processing starts and the request goes to the shared worker (the existing manager, or a new one for "/cswx/worker.js"); with a worker the manager gains exactly one pending, sent request under the next id, the output stays and processing goes on; without one the promise is rejected at once, the output becomes the fallback's and processing ends |
| `Demo.DemoTool.ResumeProcessText` | src/tools/DemoTool.tsx:45-60 | the call after its `await`, once the request's id has settled in the shared manager's log: the output becomes the resolved string, or, on a rejection, the fallback's; processing ends |
| `Demo.ProcessAnsweredByWorker` | src/tools/DemoTool.tsx:36-61 | a whole call for one of the tool's operations that the worker script answers: whether or not a worker could be built, the output ends as the local transform's and processing ends |
| `Demo.AnswerAndResume` | src/tools/DemoTool.tsx:45-46 | the worker script answers the pending request, which leaves the table and settles as a resolution with the local transform's text; the call then ends with that text as its output |
| `Demo.ProcessWithWorkerFault` | src/tools/DemoTool.tsx:36-61 | a whole call during which the worker faults: every request pending at the fault, the new one included, is rejected with "Worker error" in insertion order, so the new one settles as that rejection; the table is emptied, and the output ends as the local transform's |
| `Demo.DemoTool.SaveToHistory` | src/tools/DemoTool.tsx:70-74 | saves the current input, output and operation only when input and output are both non-empty, and the store then maps "demo-tool-history" to the new list and nothing else changes; otherwise the history is untouched |
| `Demo.DemoTool.HistorySelect` | src/tools/DemoTool.tsx:76-81 | loads the entry's input, output and operation without moving the cursor |
| `Demo.DemoTool.Undo` | src/tools/DemoTool.tsx:83-90 | the fields take the state undo hands back, and stay when it hands back nothing |
| `Demo.DemoTool.Redo` | src/tools/DemoTool.tsx:92-99 | the fields take the state redo hands back, and stay when it hands back nothing |
| `Sequences.Reverse` | public/worker.js:9 | the copy has the same length and holds the elements in the opposite order |
| `Sequences.ReverseInvolutive` | public/worker.js:9 | reversing twice gives the original |
| `Sequences.Filter` | src/registry/ToolRegistry.ts:35-41 | keeps exactly the elements satisfying the predicate and is no longer than its input |
| `Sequences.FilterIsSubsequence` | src/utils/storage.ts:65 | filtering keeps the relative order |
| `Sequences.FirstIndex` | src/hooks/useHistory.ts:79 | `findIndex`: -1 exactly when nothing matches, otherwise the first matching position |
| `Sequences.RemoveFirst` | src/utils/worker.ts:43 | `Map.delete` on the key list: an absent key leaves it unchanged, a present one shortens it by one |
| `Sequences.RemoveFirstAt` | src/utils/worker.ts:43 | removing the first occurrence cuts out exactly the slot where it sits |
| `Sequences.SpliceStart` | src/utils/storage.ts:50 | `splice(start)` clamps its start into the list, counting a negative start from the end |
| `Sequences.SpliceKeep` | src/utils/storage.ts:50 | what `splice(start)` leaves in the array: its first elements, as many as the clamped start |
| `Text.Decimal` | src/utils/worker.ts:67 | a non-empty string of decimal digits that denotes the number, one digit exactly for numbers below 10 |
| `Text.DecimalInjective` | src/utils/worker.ts:67 | distinct counters render as distinct decimals |
| `Text.Lower` | public/worker.js:17 | lower-cases each character and keeps the length |
| `Text.Upper` | public/worker.js:13 | upper-cases each character and keeps the length |
| `Text.LowerKeepsDots` | src/utils/file.ts:109 | lower-casing keeps every dot and adds none |

## Left out

- `Text.Lower`, `Text.Upper`: only ASCII letters change case; JavaScript's `toLowerCase`/`toUpperCase` also map non-ASCII letters and can change the length.
- Strings are sequences of Unicode characters, not UTF-16 code units, in `reverse`, `substring` and `new Blob([input]).size`; for text outside the Basic Multilingual Plane, JavaScript splits surrogate pairs where the model does not.
- `WorkerManagement.WorkerManager.PostMessage`: the counter is unbounded; JavaScript numbers stop counting exactly past 2^53.
- `InputSize.CheckInputSize`: the `formattedSize` field is left out, because `formatBytes` works in floating point (`Math.log`, `Math.pow`, `Math.round`); `formatFileSize` in `src/utils/file.ts` is left out for the same reason.
- `debounce` and the demo tool's debounced effect are left out: they depend on timers.
- File reading, download and the clipboard helpers are left out: they talk to the browser.
- React rendering, the sidebar's markup and i18n are left out: they only display.
- `createLazyComponent` is left out: it wraps React's `lazy`, which the model has no counterpart for.
- The module-level `toolRegistry` instance is not modelled separately; it is one `ToolRegistry`.
- `localStorage` quota errors and exceptions from `setItem` are left out: the source catches and logs them, and the write is then lost.
- JSON encoding is not modelled: values are stored already parsed. `JSON.stringify(undefined)` and values that change through a JSON round trip, such as dates, are therefore not captured.
- Each `Store` holds values of one type; a single `localStorage` shared by differently typed users is not modelled.
- `WorkerManagement.WorkerManager.Terminate`: rejects the pending requests before dropping the worker, while the source drops it first. No caller can observe this, because rejection only records settlements.
- `Storage.EffectiveMax`: a fractional cap is not modelled; caps are integers.
- `WorkerScript.Respond`: the text of a JavaScript `TypeError` is the engine's, so it is the `typeErrorText` parameter.
- `HistorySidebar.FormatTimestampExamples`: the locale date rendering is the `localeDate` parameter, and the current time is `now`.
- Clocks and random ids are parameters: `Date.now()` and `Math.random()` in `HistoryStorage.add` and `new Date()` in `formatTimestamp`.
- The event loop is not modelled: replies, worker errors and handler calls are applied one after another, and the time between `postMessage` and the settlement of its promise is not represented.
- `Demo.DemoTool.ProcessText`: the `async` call is split at its `await` into `ProcessText` and `Demo.DemoTool.ResumeProcessText`. Other events (replies, worker errors, other calls) may run between the two, as `Demo.ProcessAnsweredByWorker` and `Demo.ProcessWithWorkerFault` show for one reply and one fault. A request that never settles leaves `isProcessing` true for good; the resume step then never runs, as in the source. A request rejected at once is caught within `ProcessText` itself, since the model has no microtask between the rejection and the `catch`.
- `Demo.DemoTool.ResumeProcessText`: a resolved value is required to be a string, which `Demo.WorkerAnswersStrings` shows the worker guarantees for string payloads; `result as string` does not check it in the source.
- `WorkerManagement.WorkerManager.PostMessage`: a payload that the structured clone cannot copy (a function, say) makes `worker.postMessage` throw inside the promise executor. The source then rejects the promise with that `DataCloneError`, after the counter has advanced and with the id left pending for good. The model's `NonString` does not tell cloneable from uncloneable values, so every post to a live worker is `Posted`.
- `HistorySidebar.DefaultPreview`: for data whose `JSON.stringify` is `undefined` (`undefined` itself or a function), the source's `.substring` throws a `TypeError` and rendering fails. `OtherData` always carries a JSON text, so that path is not modelled.
