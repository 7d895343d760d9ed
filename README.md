# Upload queue and content-status tracker, modelled in Dafny

This project models the client-side core of a content-upload front end. It covers four parts:

- **The upload hook** (`hooks/useContentUpload.ts`). It holds a list of upload entries. Each entry has a
  six-state status (`queued`, `uploading`, `processing`, `complete`, `error`, `cancelled`) and a
  simulated progress value. The hook classifies a file's MIME type when it is enqueued. It also removes,
  cancels and clears entries, and transfers the queued entries one at a time: a store call to the object
  store, then a create call to the API.
- **The wire mapping** (`types/content.ts`). It translates snake_case server records to the client's
  content item, including `parseJsonField` and the topic renaming, and the create request back to
  snake_case.
- **The content-list query** (`hooks/useContentItems.ts`). It holds the in-flight status set, the 3-second
  poll decision, the normalisation of a fetched page, the access-token guard, and the delete and retry
  mutations that invalidate the list.
- **The status badge and drop zone tables** (`components/upload/StatusBadge.tsx`,
  `components/upload/UploadDropzone.tsx`). These are the status→label/spinner table with its fallback and
  tooltip rule, the accepted-type table, the size limit, and the drop handler.

Layout, one module per file:

| file | module | models |
|---|---|---|
| `externals.dfy` | `Externals` | Option/Result, thrown values, the session |
| `content.dfy` | `Content` | `types/content.ts` (pure) |
| `upload_model.dfy` | `UploadModel` | the values and list updates of `hooks/useContentUpload.ts` |
| `upload_hook.dfy` | `UploadHook` | the hook as a class `ContentUpload` whose methods update its state |
| `content_items.dfy` | `ContentItems` | `hooks/useContentItems.ts`: pure rules plus the `Tracker` class |
| `status_badge.dfy` | `StatusBadge` | `components/upload/StatusBadge.tsx` (pure) |
| `upload_dropzone.dfy` | `UploadDropzone` | the tables of `components/upload/UploadDropzone.tsx` and its `onDrop` handler as a method on a `Dropzone` class |

How the outside world appears in the model:

- **uuid generator.** This is a counter `nextId` in the hook object, so ids are `nat`s. Storage paths
  render them in decimal.
- **`JSON.parse`.** This is a parameter `parse: string -> Option<Json>`, where `None` means that it threw.
- **Storage and API calls.** These are appended to a log `calls`. Their outcomes come from a `Script` value:
  the store resolves (with or without an `error` member) or rejects, and the remove and the create
  resolve or reject.
- **Abort controllers.** These are a map from upload id to an "aborted" flag.
- **The 200 ms progress interval.** This is the set `ticking` plus an explicit `Tick(id)` method.
- **Interleaving.** The user's actions (tick, cancel, remove, clear, queue) can run while the executor
  waits on an awaited call. Each `Script` lists them per await, and `DispatchAll` runs them.
- **Query cache.** `invalidateQueries` is a log of keys plus a `stale` flag on the tracker.
- **`getSession`.** Its result is a `Result<Option<Session>, Thrown>` parameter.

Values read from the wire are kept as raw JSON values (`Json`), because the TypeScript `as` casts check
nothing at run time.

## Model

| member | source | states |
|---|---|---|
| `UploadModel.GetContentType` | hooks/useContentUpload.ts:30-37 | a failed classification carries the message `Unsupported file type: <mime>` |
| `UploadModel.GetContentTypeCases` | hooks/useContentUpload.ts:30-37 | text iff the type starts with `text/` (the `text/markdown` test adds nothing), audio iff `audio/`, pdf iff exactly `application/pdf`, video iff `video/`, and failure iff none of these |
| `UploadModel.PrefixesDisjoint` | hooks/useContentUpload.ts:31-34 | the three prefixes exclude each other and `application/pdf` has none of them, so the order of the tests does not matter |
| `UploadModel.NewEntry` | hooks/useContentUpload.ts:49-82 | the appended entry has progress 0 and the next id. A type that classifies gives `queued` with a fresh content id. Any other type gives `error` with `Unsupported file type: <type or 'unknown'>` and no content id |
| `UploadModel.EnqueuePreservesWellFormed` | hooks/useContentUpload.ts:49-82 | enqueueing keeps the list invariant: ids are distinct and fresh, progress is a multiple of 10 in range, and a queued entry has a content id |
| `UploadHook.ContentUpload.QueueFile` | hooks/useContentUpload.ts:49-82 | the list becomes the old list plus exactly one entry at the end, the generator advances by the ids drawn, and nothing else changes |
| `UploadModel.RemoveIdSpec` | hooks/useContentUpload.ts:87-89 | removal drops every entry with the id whatever its status, keeps the others in order, and leaves the list unchanged iff the id is absent |
| `UploadModel.RemoveUnique` | hooks/useContentUpload.ts:87-89 | with distinct ids, removing entry i's id cuts out exactly entry i |
| `UploadHook.ContentUpload.RemoveFromQueue` | hooks/useContentUpload.ts:87-89 | the new list is the old one with the id removed, and nothing else changes |
| `UploadModel.UpdateEntries` | hooks/useContentUpload.ts:107-109 | an id-targeted `map` keeps length and ids and leaves every other entry unchanged |
| `UploadModel.ApplyChange` | hooks/useContentUpload.ts:152-156 | no status or progress change alters an entry's id, file or content id |
| `UploadModel.UpdateSetsStatus` | hooks/useContentUpload.ts:174-203 | after a status change, every entry with the id has the new status |
| `UploadModel.UpdateKeepsOthers` | hooks/useContentUpload.ts:107-109 | a change aimed at one id leaves the status of every other id as it was |
| `UploadModel.UpdatePreservesWellFormed` | hooks/useContentUpload.ts:115-123 | the hook's changes keep progress a multiple of 10, at most 90 while uploading, and 100 once processing or complete |
| `UploadModel.TicksSaturate` | hooks/useContentUpload.ts:115-123 | from 0, n ticks of an uploading entry give progress min(10n, 90) |
| `UploadHook.ContentUpload.Tick` | hooks/useContentUpload.ts:115-123 | a tick changes only the targeted entry, and only while its interval runs |
| `UploadModel.CancelCases` | hooks/useContentUpload.ts:257-271 | an unknown id changes nothing; `queued` removes exactly that entry; `uploading` sets only that entry's abort flag and leaves the list unchanged; any other status changes nothing |
| `UploadModel.CancelPreservesWellFormed` | hooks/useContentUpload.ts:257-271 | cancelling keeps the list invariant |
| `UploadHook.ContentUpload.CancelUpload` | hooks/useContentUpload.ts:257-271 | the new list and controller flags are those of the cancel rule, no controller is added or dropped, and nothing else changes |
| `UploadModel.ClearCompletedSpec` | hooks/useContentUpload.ts:276-282 | clearing keeps exactly the `queued`, `uploading` and `processing` entries in order, and clearing twice equals clearing once |
| `UploadHook.ContentUpload.ClearCompleted` | hooks/useContentUpload.ts:276-282 | the new list is the cleared list, and nothing else changes |
| `UploadModel.HasQueuedFilesIffCount` | hooks/useContentUpload.ts:287-292 | `hasQueuedFiles` holds iff `queuedCount > 0` |
| `UploadModel.QueuedOfSpec` | hooks/useContentUpload.ts:216 | the start snapshot holds queued entries of the list, in list order, with distinct ids; an entry is in it iff it is a queued entry of the list, and the snapshot of two lists joined is their two snapshots joined |
| `UploadModel.SnapshotQueued` | hooks/useContentUpload.ts:216 | each snapshot id was drawn before the run and is queued wherever it occurs in the list |
| `UploadModel.MarkUnauthenticatedSpec` | hooks/useContentUpload.ts:226-235 | without a user, each queued entry becomes `error` / `Not authenticated` with everything else about it kept, other entries are untouched, and nothing stays queued |
| `UploadModel.FilePathSegments` | hooks/useContentUpload.ts:112 | the storage path reads back as user id, content id and file name |
| `UploadModel.SettleOf` | hooks/useContentUpload.ts:177-203 | no throw gives `complete`; a thrown `Error` named `AbortError` or with message `Upload cancelled` gives `cancelled`; anything else gives a failure with the thrown message, or `Upload failed` for a non-`Error` |
| `UploadModel.TransferOutcomes` | hooks/useContentUpload.ts:137-203 | a rejected store settles by the catch rule on its reason, abort or not; otherwise an abort seen after the store cancels, whatever its `error` member (unless the clean-up remove itself rejects), and a store error, an unclassifiable type or a rejected create settles by the catch rule; only a clean run completes |
| `UploadModel.TransferShapes` | hooks/useContentUpload.ts:130-172 | a transfer issues the store, then the remove of the same path iff an abort was seen, or the create request iff no abort, a store that resolved without error and a type that classifies |
| `UploadHook.ContentUpload.BeginTransfer` | hooks/useContentUpload.ts:96-123 | registers an un-aborted controller, marks the entry uploading, starts its interval and issues the store at `userId/contentId/filename` |
| `UploadHook.ContentUpload.StoreStep` | hooks/useContentUpload.ts:94-135 | the entry is uploading and the store is issued; after the await its abort flag is raised only if a cancel of it ran, and is raised whenever a cancel of the listed entry ran with no removal before it; endings are kept |
| `UploadHook.ContentUpload.AfterStore` | hooks/useContentUpload.ts:137-144 | a rejected store goes straight to the catch block without reading the abort flag; otherwise the flag is examined before the store's `error` member, and a seen abort issues `remove(path)`; a thrown value leaves the entry uploading or processing, and every ending recorded before is kept |
| `UploadHook.ContentUpload.CreateStep` | hooks/useContentUpload.ts:146-176 | stops the interval, sets progress 100 with `processing`, sends the create request built from the file, marks the entry complete on success and leaves it `processing` when something is thrown; every ending recorded before is kept, and with only ticks meanwhile the ids stay in place |
| `UploadHook.ContentUpload.SettleTransfer` | hooks/useContentUpload.ts:177-207 | records the ending, stops the interval, and deletes the controller on every exit path; every other ending is kept and the ids stay in place |
| `UploadHook.ContentUpload.UploadSingleFile` | hooks/useContentUpload.ts:94-210 | one transfer: its calls have one of the three shapes and its ending is the catch rule applied to the outcomes. A store that rejects skips the abort check: only the store is issued and the rejection settles the entry. Otherwise an abort is seen only after a cancel during the store, and always after a cancel of the listed entry with no removal before it; the transfer then removes the stored object and, if that removal succeeds, ends cancelled. The controller and interval are gone afterwards, other entries keep their status, every earlier ending is kept, and with only ticks meanwhile the ids stay in place |
| `UploadHook.ContentUpload.RunTurn` | hooks/useContentUpload.ts:239-245 | a turn issues no call iff the per-entry check skips the entry, and otherwise the calls of one transfer; a turn that ran leaves its entry with the ending its calls and its script give (the clean-up shape only after a cancel, and always after a cancel of the listed entry when the store resolves; the store alone when it rejects), and every earlier ending is kept |
| `UploadHook.ContentUpload.RunQueued` | hooks/useContentUpload.ts:239-245 | the snapshot entries are processed one after another in list order, and the call log is the concatenation of their turns; each turn that ran leaves its entry with the ending its calls and its script give, unchanged by later turns; earlier endings are kept, and with only ticks during the turns the list keeps its ids in place |
| `UploadHook.ContentUpload.RunStart` | hooks/useContentUpload.ts:215-252 | no queued entries: nothing changes. A rejected session lookup is passed on. No user: queued entries fail and nothing is sent. With a user: every snapshot turn runs, each turn that ran ends its entry as its calls and its script say, then one invalidation; with only ticks meanwhile the list keeps its ids in place. Every ending recorded before the run is kept. `isUploading` is true during the run and false afterwards |
| `UploadHook.ContentUpload.StartUpload` | hooks/useContentUpload.ts:215-252 | the code as written: every snapshot entry is stored, each at its own path, and ends as its calls and its script say (for instance `complete` after a clean run); earlier endings are kept, and the key `['content']` is invalidated once |
| `UploadModel.SnapshotCheckNeverSkips` | hooks/useContentUpload.ts:239-245 | the per-entry check, reading the start-time snapshot, lets every snapshot entry through |
| `UploadModel.CancelledEntryPassesStaleCheck` | hooks/useContentUpload.ts:239-263 | a queued entry cancelled before its turn is gone from the live list, yet the stale check still passes it |
| `UploadHook.ContentUpload.StartUploadCorrected` | hooks/useContentUpload.ts:215-252 | with the check on the live list, an entry that is gone or no longer queued at its turn issues no call, each transferred entry ends as its calls and its script say, earlier endings are kept, and the content-list key is invalidated |
| `UploadHook.CleanRunCompletes` | hooks/useContentUpload.ts:94-252 | one queued text file, a signed-in user and no interference: the entry ends `complete` at 100 %, `isUploading` is cleared and `['content']` is invalidated |
| `UploadHook.CancelDuringStoreCancels` | hooks/useContentUpload.ts:94-141 | a cancel during the store: the calls are the store and the removal of the same path, and the transfer ends cancelled |
| `UploadHook.CancelDuringRejectedStoreFails` | hooks/useContentUpload.ts:130-200 | a cancel during a store whose promise rejects: the abort check is skipped, only the store is issued, and the entry fails with the rejection's message |
| `UploadHook.ContentUpload.Dispatch` | hooks/useContentUpload.ts:257-282 | a user action during an await never gives an existing entry a new status (it keeps its status or disappears), and only a cancel of that id changes a controller flag. A raised flag stays raised, and a cancel of an uploading entry raises its flag. An uploading entry stays listed unless it is the one removed. Endings are kept, and a tick keeps the ids in place |
| `UploadHook.ContentUpload.DispatchAll` | hooks/useContentUpload.ts:257-282 | the actions of one await run in order: no entry gets a new status, and a flag changes only for a cancelled id. A cancel of an uploading entry with no removal of it before leaves its flag raised. Endings are kept, and with only ticks the ids stay in place |
| `UploadHook.CancelKeeps` | hooks/useContentUpload.ts:257-271 | a cancel keeps every ending and every uploading entry, raises the registered controller of an uploading entry, and lowers no flag |
| `UploadHook.MarkUnauthenticatedKeepsEndings` | hooks/useContentUpload.ts:222-231 | the no-session update keeps the ending of every settled entry |
| `Content.ParseStatus` | types/content.ts:2-13 | a parsed status has exactly the given wire name |
| `Content.StatusNameRoundTrip` | types/content.ts:2-13 | every status is recovered from its wire name |
| `Content.ParseContentType` | types/content.ts:1 | a parsed content type has exactly the given wire name |
| `Content.ParseJsonFieldAbsent` | types/content.ts:73-81 | `parseJsonField` is absent iff the input is falsy (the empty string included) or is a string that does not parse; it never throws |
| `Content.ParseJsonFieldPresent` | types/content.ts:75-82 | a present string yields the parsed value, and a present non-string comes back unchanged |
| `Content.MapTopicsElementwise` | types/content.ts:86-90 | topics map element-wise: `title` is kept, `relevance_score` becomes `relevanceScore`, length and order are kept, and the map throws iff an element is null or undefined |
| `Content.TransformTopicsCases` | types/content.ts:86-90 | absent or null topics stay absent, an array is mapped, and any other value throws |
| `Content.TransformCopiesFields` | types/content.ts:95-114 | normalisation fails only on topics; otherwise every scalar field is its snake_case key's value unchanged, and `vocabulary` and `grammar_points` go through `parseJsonField` with no inner renaming |
| `Content.TransformContentRequest` | types/content.ts:120-128 | the request record has exactly the five keys `content_type`, `original_filename`, `file_path`, `file_size` and `mime_type` |
| `Content.RequestWireRoundTrip` | types/content.ts:120-128 | reading the five keys back from the request record gives the request |
| `Content.RequestItemRoundTrip` | types/content.ts:95-128 | a record holding the request record's keys normalises to an item whose `contentType`, `originalFilename`, `filePath`, `fileSize` and `mimeType` are the request's |
| `Content.TopicsRoundTrip` | types/content.ts:86-90 | topics renamed back to wire objects map back to the same topics |
| `Content.ItemWireRoundTrip` | types/content.ts:71-115 | an item (with its JSON fields in parsed form) renamed to snake_case normalises back to the same item |
| `Content.WireItemRoundTrip` | types/content.ts:71-115 | a server record with the documented keys, whose JSON members are already parsed, normalises and renames back to the same record |
| `ContentItems.InFlightExactly` | hooks/useContentItems.ts:9-17 | the in-flight statuses are exactly pending, uploading, processing, transcribing, extracting, parsing and indexing |
| `ContentItems.InFlightNamesStatus` | hooks/useContentItems.ts:45-47 | only a string naming a listed status is in flight |
| `ContentItems.AnyInFlightIff` | hooks/useContentItems.ts:45-47 | the `some` test holds iff some item's status is in flight |
| `ContentItems.RefetchIntervalSpec` | hooks/useContentItems.ts:42-49 | the interval is 3000 iff some cached item is in flight, and otherwise there is no polling (including no data and an empty list) |
| `ContentItems.SettledPageDoesNotPoll` | hooks/useContentItems.ts:42-49 | a page of `text_extracted`, `parsed`, `ready` and `failed` items does not poll |
| `ContentItems.MapTransformSpec` | hooks/useContentItems.ts:40 | the map succeeds iff every element normalises, and then yields one item per element in order |
| `ContentItems.ItemsOfSpec` | hooks/useContentItems.ts:37-41 | a missing `items` gives `[]`; an array is normalised with the same length and order |
| `ContentItems.GetAccessToken` | hooks/useContentItems.ts:19-30 | yields the session's token iff a session with a non-empty token exists; otherwise `No active session` (a rejected lookup is passed on) |
| `ContentItems.ItemsKeyFilters` | hooks/useContentItems.ts:36 | only the empty filter and `['content-items']` reach the list query; `['content']` does not |
| `ContentItems.Tracker.Invalidate` | hooks/useContentItems.ts:59 | logs the key and marks the list stale iff the key matches the list query |
| `ContentItems.Tracker.Fetch` | hooks/useContentItems.ts:35-50 | without a token it fails before any request. A success replaces the cache and clears staleness. A failure keeps the cache. The next poll always follows the cache |
| `ContentItems.Tracker.DeleteItem` | hooks/useContentItems.ts:53-61 | without a token it fails before any request; success invalidates `['content-items']` without touching the cache, and failure invalidates nothing |
| `ContentItems.Tracker.RetryItem` | hooks/useContentItems.ts:63-72 | without a token it fails before any request; success returns the normalised item and invalidates `['content-items']` |
| `StatusBadge.LookupTotal` | components/upload/StatusBadge.tsx:11-33 | every status has its own entry, and a string naming no status gets the `pending` entry |
| `StatusBadge.LabelsIdentifyStatus` | components/upload/StatusBadge.tsx:19-29 | no two statuses share a label |
| `StatusBadge.SpinnerExactly` | components/upload/StatusBadge.tsx:19-43 | the spinner shows iff `isLoading`, which holds exactly for uploading, processing, transcribing, extracting, parsing and indexing |
| `StatusBadge.TitleRule` | components/upload/StatusBadge.tsx:41 | the tooltip is the error message iff the status is `failed` and the message is non-empty, and otherwise absent |
| `StatusBadge.BadgeExamples` | components/upload/ContentList.test.tsx:84-117 | ready→`Ready` green; failed→`Failed` red with tooltip; transcribing and indexing spin; parsing→`Analyzing...` |
| `StatusBadge.LoadingIsInFlight` | components/upload/StatusBadge.tsx:19-29 | every loading status is in flight, but `pending` is in flight without a spinner |
| `UploadDropzone.AcceptedTypesClassify` | components/upload/UploadDropzone.tsx:10-20 | every accepted MIME type classifies (as its listed kind) and so is queued, not failed; `MAX_FILE_SIZE` is 104857600 |
| `UploadDropzone.RejectionMessage` | components/upload/UploadDropzone.tsx:40-47 | `file-too-large` gives the 100MB message, `file-invalid-type` the supported-types message, and otherwise the first error's message or `File rejected` |
| `UploadDropzone.RejectionMessageNonEmpty` | components/upload/UploadDropzone.tsx:40-47 | a rejected drop always shows a non-empty error |
| `UploadDropzone.Dropzone.OnDrop` | components/upload/UploadDropzone.tsx:35-57 | any rejection sets its message and queues nothing; otherwise the error is cleared and each accepted file is queued once, in drop order |
| `UploadModel.NewEntriesInOrder` | components/upload/UploadDropzone.tsx:52-54 | entry i of a queued batch belongs to file i, with progress 0 |
| `UploadModel.NewEntriesPreserveWellFormed` | components/upload/UploadDropzone.tsx:52-54 | queueing a batch keeps the list invariant |
| `UploadModel.HasSettledIffClearChanges` | components/upload/UploadDropzone.tsx:66-68 | `hasCompletedUploads` holds iff `clearCompleted` would remove at least one entry |

## Left out

- Supabase storage and auth, `uuid`, `fetch` and `lib/api.ts` are not part of this model. They appear only
  as their outcomes: a counter for fresh ids, a session parameter, and the outcomes of the three calls. The
  store resolves, with or without an `error` member, or its promise rejects; the remove and the create
  resolve or reject. A rejection carries an `ApiError(status, code, message)`, another `Error` or a
  non-`Error` value.
- The abort check before the store call (hooks/useContentUpload.ts:126-128) is not a step. The controller
  is created in the same synchronous run, so the check can never fire.
- Aborting an in-flight create request is not modelled as a separate outcome. The signal could only be
  aborted while the entry is `uploading`, but the entry is `processing` during the create call. A create
  rejection whose error is named `AbortError` is still settled by the catch rule.
- TanStack Query internals are not modelled: timers, the 1-second `staleTime`, and refetch scheduling.
  The tracker keeps only the poll decision and a `stale` flag.
- React rendering and closures: `cancelUpload` reads the list as it is when it runs. In the source it
  reads the list of the last render.
- Interleavings are limited to the awaits of one upload and the session lookup. Callers are assumed
  never to start a second `startUpload` while one runs (the button is disabled while `isUploading`).
- The 200 ms timing of the interval is not modelled; a tick is an explicit event.
- The oversize check is not in the queue: react-dropzone enforces `maxSize`, so only the constant is
  modelled.
- `formatFileSize` is not modelled, because it uses floating-point `Math.log`.
- JSX, styling and modals are not modelled, nor are the auth plumbing and `src/db/schema.ts`.
- StatusBadge.LookupTotal: a status string that names an `Object.prototype` member (for example
  `constructor`) is treated like any unknown status and gets the `pending` entry. In JavaScript that
  lookup returns the inherited member instead. The lookup also takes only strings, while in the source
  a non-string status (a number from the wire, say) likewise falls back to the `pending` entry.
- Content.Json: JSON numbers are reals, so NaN, infinities and the float rounding of `file_size` are not
  modelled.

## Findings

| source | as written | input that shows it | evidently intended | confidence | as-written member | corrected member |
|---|---|---|---|---|---|---|
| hooks/useContentUpload.ts:239-245 | the per-entry "was it cancelled while waiting" check reads the `uploads` captured when `startUpload` began | queue A and B, start, then cancel B while A is storing: B was removed from the list, yet it is still stored and created | the check reads the current list, so a cancelled or removed entry is not sent | medium, not executed | `UploadModel.CancelledEntryPassesStaleCheck` | `UploadHook.ContentUpload.StartUploadCorrected` |
| hooks/useContentUpload.ts:248 | after a run the hook invalidates the query key `['content']` | any run with a session: the list query's key `['content-items']` does not start with `content` as its first element, so the list is not refreshed until its next poll | invalidate `['content-items']` so that the new items appear at once | medium, not executed | `ContentItems.ItemsKeyFilters` | `UploadHook.ContentUpload.StartUploadCorrected` |
