# NeRF-or-Nothing front end: the sequential cores, in Dafny

This project models the logic of the NeRF-or-Nothing web front end that sits around its user
interface and network code, and proves what that logic promises:

- **Chunked output download** (`fetchSceneOutput`): the byte ranges it requests, the fixed-size
  buffer it fills at a running offset, the early stop and the trim. The result is proved to be
  the received bytes, concatenated and cut at the buffer size, or null when a chunk answer is
  neither ok nor 206 Partial Content (section 15.3.7 of RFC 9110). The ranges are inclusive
  `bytes=first-last` ranges (section 14.1.2 of RFC 9110). They are proved contiguous, and
  together they cover the buffer exactly.
- **Upload form** (`fetchPostVideo`): the form fields derived from a training configuration,
  `total_iterations` capped at 30000, and the statuses 200 and 202 it accepts.
- **Training-configuration editor** (`ConfigSelector`, `TrainingConfig`): a class whose handlers
  keep the save iterations sorted, duplicate-free, at most five and within [0, 30000]. It also
  covers the output-type toggle, the mode change that clears the output types, and the
  recommended preset.
- **Upload panel** (`VideoUpload`): the file, uploading and error fields, and the validity check
  that guarantees the form a finite `total_iterations`.
- **Splat renderer bookkeeping** (`SplatMesh`): the 32-byte record stride, the record count
  posted with each new buffer, the per-frame camera message, and the worker reply that
  replaces the four per-instance arrays. It also covers the number of instances drawn, and the
  new-data flag under React's batching of the state updates an effect makes.
- **Retry wrappers** (`useFetchRetry`, `useAuthFetchRetry`): pure recursions over the outcomes of
  the wrapped function's calls. The waits become a count of delays.
- **Small state machines**: the authentication session over browser storage (`AuthContext`), job
  progress polling (`Home`), resource and iteration selection (`Scene`), and the scene history's
  paging and preview cache (`MantineSceneHistory`).
- **Extension map** (`resourceTypeToExtension`).

There is one module per source file. Every request a handler makes is replaced by its answer,
which the handler's method takes as a parameter. Each handler runs as one atomic step. The
wrapped fetch function of the retry wrappers is replaced by a function from call number to
outcome.

Where the code changes state (component state, the download buffer, browser storage), the model
uses a class or an array with `modifies` clauses. The properties the source promises are proved
as invariants (`Valid()`) and as lemmas about the specification functions.

`SplatMesh.tsx` keeps no generation counter: every worker reply is applied, including a reply
computed for a buffer that has since been replaced (`SplatMesh.SplatMeshState.OnWorkerReply`).

## Model

| member | source | states |
|---|---|---|
| `CommonApiCalls.TotalSize` | src/Fetch/CommonApiCalls.ts:474-475 | with at least one chunk and a last chunk of 1..chunkSize bytes, the buffer holds more than chunks-1 and at most chunks full chunks, and never less than the last chunk |
| `CommonApiCalls.ChunkRange` | src/Fetch/CommonApiCalls.ts:478-480 | chunk i's range starts at i*chunkSize and holds chunkSize bytes, except the last chunk's, which holds lastChunkSize bytes and ends at the buffer's last byte |
| `CommonApiCalls.RequestedRanges` | src/Fetch/CommonApiCalls.ts:477-480 | one range per chunk, in request order, range i starting at i*chunkSize with chunkSize bytes, the last with lastChunkSize |
| `CommonApiCalls.RangesContiguous` | src/Fetch/CommonApiCalls.ts:474-480 | with non-empty chunks, the first range starts at 0; each range starts right after the previous one; all but the last hold chunkSize bytes; the last holds lastChunkSize bytes and ends at (chunks-1)*chunkSize + lastChunkSize - 1 |
| `CommonApiCalls.RangesPartition` | src/Fetch/CommonApiCalls.ts:478-480 | byte b lies in the range of chunk i if and only if b is in [0, totalSize) and i is b's covering chunk, so the ranges cover the buffer exactly once |
| `CommonApiCalls.RequestsStopAtFill` | src/Fetch/CommonApiCalls.ts:511-512 | the chunks stop at the first one that brings the received byte count to totalSize; every earlier one left the buffer short |
| `CommonApiCalls.CopyInto` | src/Fetch/CommonApiCalls.ts:507-508 | the copy writes the chunk bytes at [offset, offset+len) and leaves every other byte of the buffer unchanged |
| `CommonApiCalls.AssembleChunks` | src/Fetch/CommonApiCalls.ts:476-513 | the loop over the buffer keeps 0 <= offset <= totalSize and computes exactly the reference download AssembleFrom: acceptance, buffer content, requested ranges |
| `CommonApiCalls.AssembleRequests` | src/Fetch/CommonApiCalls.ts:494-496 | the download requests no chunk after the one that fills the buffer; it is accepted iff every answer up to that chunk is ok or 206, and then all of them were requested |
| `CommonApiCalls.AssembleRejection` | src/Fetch/CommonApiCalls.ts:494-496 | a rejected download stopped at its first answer that is neither ok nor 206, and every earlier answer was accepted |
| `CommonApiCalls.AssembleContent` | src/Fetch/CommonApiCalls.ts:507-516 | an accepted download's buffer holds the concatenated chunk bytes cut at min(received, totalSize) |
| `CommonApiCalls.FetchSceneOutput` | src/Fetch/CommonApiCalls.ts:462-521 | the result is null iff a requested chunk was rejected or the buffer size is negative. Otherwise it is the prefix of the concatenated chunks of length min(sum of chunk lengths, totalSize), trimmed when short. The requested ranges are a prefix of the chunk ranges, and size mismatches do not abort |
| `CommonApiCalls.TotalIterations` | src/Fetch/CommonApiCalls.ts:285-288 | total_iterations is -Infinity iff no iterations are given; otherwise it is min(max, 30000): at most 30000, at least min(x, 30000) for every iteration x, one of the iterations unless it is 30000, and 30000 only when some iteration reaches 30000 |
| `CommonApiCalls.UploadFormOf` | src/Fetch/CommonApiCalls.ts:280-289 | the form carries the mode and scene name unchanged, and its total_iterations reads "-Infinity" iff no iterations are given |
| `CommonApiCalls.UploadFormRoundTrip` | src/Fetch/CommonApiCalls.ts:280-289 | the server reads the save iterations back exactly from the comma-joined field, and the output types too when none contains a comma; total_iterations reads back as min(max, 30000) |
| `CommonApiCalls.UploadResult` | src/Fetch/CommonApiCalls.ts:300-313 | the upload yields the parsed body iff the status is 200 or 202, and null for any other status |
| `CommonApiCalls.UploadStricterThanOk` | src/Fetch/CommonApiCalls.ts:300-306 | an accepted upload status is ok, but the ok statuses 201 and 204 yield null |
| `TrainingConfig.AllOutputTypes` | src/Types/TrainingConfig.ts:9-12 | the set of output types is exactly those some training mode lists |
| `TrainingConfig.OutputTypesPerMode` | src/Types/TrainingConfig.ts:8-12 | the output-type table has one entry per valid training mode (two distinct modes), and "video" is offered by both |
| `TrainingConfig.RecommendedConfigConsistent` | src/Types/TrainingConfig.ts:13-18 | the recommended mode is valid, its output types are all offered by that mode, and its scene name is empty |
| `ConfigSelector.Remove` | src/Components/Home/VideoUpload/ConfigSelector.tsx:93-95 | filtering removes every occurrence of v, keeps every other element with its multiplicity, and never lengthens the list |
| `ConfigSelector.Toggle` | src/Components/Home/VideoUpload/ConfigSelector.tsx:69-75 | toggling flips the membership of v and leaves the membership of every other value unchanged |
| `ConfigSelector.ToggleTwice` | src/Components/Home/VideoUpload/ConfigSelector.tsx:69-75 | toggling an absent value twice restores the list exactly |
| `ConfigSelector.SortNumbers` | src/Components/Home/VideoUpload/ConfigSelector.tsx:86-88 | the numeric sort gives an ascending permutation of its input |
| `ConfigSelector.AddKeepsRule` | src/Components/Home/VideoUpload/ConfigSelector.tsx:78-91 | a successful add keeps the list strictly ascending, within [0, 30000] and at most 5 long, and adds exactly the new value while keeping every old entry |
| `ConfigSelector.RemoveKeepsRule` | src/Components/Home/VideoUpload/ConfigSelector.tsx:93-95 | removing keeps the rule, drops v and keeps every other entry |
| `ConfigSelector.RemoveKeepsStrict` | src/Components/Home/VideoUpload/ConfigSelector.tsx:94 | removing a value keeps the remaining entries strictly ascending, in their order |
| `ConfigSelector.TotalIterationsOfValid` | src/Components/Home/VideoUpload/ConfigSelector.tsx:86-88 | for a valid non-empty list, the upload's total_iterations is its last, largest entry |
| `ConfigSelector.RecommendedIterationsValid` | src/Types/TrainingConfig.ts:16 | the recommended iterations [7000, 30000] satisfy the editor's rule |
| `ConfigSelector.ConfigSelectorState.constructor` | src/Components/Home/VideoUpload/ConfigSelector.tsx:32-37 | the editor starts with "gaussian", no output types, no iterations, an unset entry, unchecked preset and empty name |
| `ConfigSelector.ConfigSelectorState.UpdateConfig` | src/Components/Home/VideoUpload/ConfigSelector.tsx:43-46 | the reported configuration is exactly the current mode, output types, iterations and scene name |
| `ConfigSelector.ConfigSelectorState.HandleRecommendedChange` | src/Components/Home/VideoUpload/ConfigSelector.tsx:48-60 | checking loads the preset's mode, types and iterations; unchecking resets them to "gaussian", none and none; the scene name is untouched and the rule holds |
| `ConfigSelector.OutputTypeChoices` | src/Components/Home/VideoUpload/ConfigSelector.tsx:115-117 | the output-type lookup of a render succeeds iff the mode is one of the valid training modes, and then lists that mode's output types, "video" among them |
| `ConfigSelector.DeselectBreaksRender` | src/Components/Home/VideoUpload/ConfigSelector.tsx:106-117 | as written (`ModeAfterChangeAsWritten` stores the select's value, null included), the next render's output-type lookup fails exactly when the select reported a deselect |
| `ConfigSelector.ModeAfterChange` | src/Components/Home/VideoUpload/ConfigSelector.tsx:62-66 | corrected: a picked mode becomes the mode, a deselect keeps the old one |
| `ConfigSelector.ModeChangeKeepsChoices` | src/Components/Home/VideoUpload/ConfigSelector.tsx:106-117 | corrected: after any mode change the next render's output-type lookup succeeds |
| `ConfigSelector.ConfigSelectorState.HandleTrainingModeChange` | src/Components/Home/VideoUpload/ConfigSelector.tsx:62-66 | corrected: a picked mode becomes the mode and clears the output types; a deselect changes nothing; iterations, name, entry and preset flag unchanged; the mode stays a valid one |
| `ConfigSelector.ConfigSelectorState.RenderedOutputTypes` | src/Components/Home/VideoUpload/ConfigSelector.tsx:115-117 | in every valid state the render's output-type lookup succeeds, with "video" among the choices |
| `ConfigSelector.ConfigSelectorState.HandleOutputTypeChange` | src/Components/Home/VideoUpload/ConfigSelector.tsx:68-75 | the output types become the toggle of the old ones; nothing else changes |
| `ConfigSelector.ConfigSelectorState.HandleIterationInput` | src/Components/Home/VideoUpload/ConfigSelector.tsx:133 | the typed number becomes the entry |
| `ConfigSelector.ConfigSelectorState.HandleSaveIterationAdd` | src/Components/Home/VideoUpload/ConfigSelector.tsx:77-91 | when the entry is a number in [0, 30000], not listed, and fewer than 5 are listed, it is added in sorted position and the entry is blanked; otherwise iterations and entry are unchanged; the rule is kept |
| `ConfigSelector.ConfigSelectorState.HandleRemoveIteration` | src/Components/Home/VideoUpload/ConfigSelector.tsx:93-95 | the iterations become the old ones without the value, and the rule is kept |
| `ConfigSelector.ConfigSelectorState.HandleSceneNameChange` | src/Components/Home/VideoUpload/ConfigSelector.tsx:177 | the typed text becomes the scene name |
| `VideoUpload.IsConfigValid` | src/Components/Home/VideoUpload/VideoUpload.tsx:38-44 | a configuration is valid iff it has a mode and an output type and its total_iterations is finite (some iteration is given) |
| `VideoUpload.ConfigValidity` | src/Components/Home/VideoUpload/VideoUpload.tsx:18-44 | the initial configuration (gaussian, [], []) is invalid and the recommended one is valid |
| `VideoUpload.ValidConfigHasTotal` | src/Components/Home/VideoUpload/VideoUpload.tsx:78 | a valid configuration gives a finite total_iterations, never "-Infinity", that reads back as at most 30000 |
| `VideoUpload.VideoUploadState.constructor` | src/Components/Home/VideoUpload/VideoUpload.tsx:15-23 | no file, not uploading, no error, the initial configuration |
| `VideoUpload.VideoUploadState.EnabledUploadHasTotal` | src/Components/Home/VideoUpload/VideoUpload.tsx:76-80 | an upload the enabled button starts computes a finite total_iterations |
| `VideoUpload.VideoUploadState.HandleFileChange` | src/Components/Home/VideoUpload/VideoUpload.tsx:27-32 | null changes nothing; a file replaces the current one and clears the error |
| `VideoUpload.VideoUploadState.HandleConfigChange` | src/Components/Home/VideoUpload/VideoUpload.tsx:34-36 | the reported configuration is stored |
| `VideoUpload.VideoUploadState.StartUpload` | src/Components/Home/VideoUpload/VideoUpload.tsx:46-50 | without a file nothing is sent and nothing changes; otherwise uploading is set, the error cleared and the file sent with the configuration |
| `VideoUpload.VideoUploadState.FinishUpload` | src/Components/Home/VideoUpload/VideoUpload.tsx:52-60 | uploading ends; an answer is handed to onUpload, and a null answer sets "Upload failed" |
| `VideoUpload.VideoUploadState.HandleUpload` | src/Components/Home/VideoUpload/VideoUpload.tsx:46-61 | the whole handler: nothing without a file; otherwise not uploading at the end, and error "Upload failed" iff the answer was null |
| `SplatMesh.RowLengthIs32` | src/Components/Scene/OutputHandlers/SplatCloud/SplatMesh.tsx:12-19 | the record stride 3*4 + 3*4 + 4*1 + 4*1 is 32 bytes |
| `SplatMesh.RecordCount` | src/Components/Scene/OutputHandlers/SplatCloud/SplatMesh.tsx:108-111 | the record count n satisfies 32n <= length < 32(n+1): whole records only, trailing bytes ignored |
| `SplatMesh.RecordCountExamples` | src/Components/Scene/OutputHandlers/SplatCloud/SplatMesh.tsx:110 | 33 bytes give 1 record, 64 give 2, 31 and 0 give none |
| `SplatMesh.RecordCountAppend` | src/Components/Scene/OutputHandlers/SplatCloud/SplatMesh.tsx:110 | appending k whole records adds exactly k to the count, whatever partial record trails |
| `SplatMesh.InitialBuffersConsistent` | src/Components/Scene/OutputHandlers/SplatCloud/SplatMesh.tsx:80-88 | the initial quad is 6 indices in 0..3 over 4 vertices, and the per-instance arrays all describe 2 splats |
| `SplatMesh.CenterCount` | src/Components/Scene/OutputHandlers/SplatCloud/SplatMesh.tsx:132 | center.length / 3 is non-negative and equals n whenever the arrays describe n splats |
| `SplatMesh.InstanceCount` | src/Components/Scene/OutputHandlers/SplatCloud/SplatMesh.tsx:157 | the instance count is at most maxSplats and at most the number of centres, and equals one of them |
| `SplatMesh.ApplyReply` | src/Components/Scene/OutputHandlers/SplatCloud/SplatMesh.tsx:141-142 | a reply replaces center, scale, color and quat by its own arrays and leaves index and position unchanged |
| `SplatMesh.ReplyReplacesEverySplat` | src/Components/Scene/OutputHandlers/SplatCloud/SplatMesh.tsx:141-142 | the buffers after a reply depend only on the reply and the quad, so no splat of an earlier buffer survives |
| `SplatMesh.SplatMeshState.constructor` | src/Components/Scene/OutputHandlers/SplatCloud/SplatMesh.tsx:81-91 | the mesh starts with the initial buffers, the flag set and nothing posted |
| `SplatMesh.SplatMeshState.CommitEffects` | src/Components/Scene/OutputHandlers/SplatCloud/SplatMesh.tsx:105-118 | in one commit the buffer is posted with its record count iff the posting effect runs with the flag set; the last queued flag update wins, and the result says whether the flag changed |
| `SplatMesh.SplatMeshState.Mount` | src/Components/Scene/OutputHandlers/SplatCloud/SplatMesh.tsx:105-118 | mounting posts the initial buffer once with its record count, and the flag stays set |
| `SplatMesh.SplatMeshState.ReceiveData` | src/Components/Scene/OutputHandlers/SplatCloud/SplatMesh.tsx:105-118 | a new buffer is posted exactly once with floor(length/32) records; the flag stays set between renders |
| `SplatMesh.SplatMeshState.Frame` | src/Components/Scene/OutputHandlers/SplatCloud/SplatMesh.tsx:121-134 | each frame posts the camera matrix with numVertex = center.length/3 of the current buffers |
| `SplatMesh.SplatMeshState.OnWorkerReply` | src/Components/Scene/OutputHandlers/SplatCloud/SplatMesh.tsx:137-147 | the buffers become ApplyReply of the old ones: only the four per-instance arrays change |
| `SplatMesh.SplatMeshState.Instances` | src/Components/Scene/OutputHandlers/SplatCloud/SplatMesh.tsx:157 | the instances drawn are at most maxSplats and at most the number of centres |
| `SplatMesh.HandleEvent` | src/Components/Scene/OutputHandlers/SplatCloud/SplatMesh.tsx:105-147 | a new buffer adds exactly its own buffer message; a frame or a worker reply adds none |
| `SplatMesh.Lifetime` | src/Components/Scene/OutputHandlers/SplatCloud/SplatMesh.tsx:105-147 | for any mix of new data, frames and worker replies after the mount, the buffer messages posted are one per buffer given, in order, each with its record count |
| `Retry.FetchRetry` | src/Fetch/Retry.tsx:21-40 | the returned callback starts at attempt 0: no call for a negative limit, otherwise 1 to maxRetries+1 calls, with a wait after every call but possibly the last |
| `Retry.FetchAttempt` | src/Fetch/Retry.tsx:23-36 | past maxRetries no call is made; otherwise between 1 and maxRetries+1-retryCount calls are made; the number of waits equals the number of calls or is one fewer |
| `Retry.FirstReturnWins` | src/Fetch/Retry.tsx:29-34 | if calls before k throw and call k <= maxRetries returns v, the result is v unchanged after exactly k+1 calls and k waits |
| `Retry.AllThrowGivesNull` | src/Fetch/Retry.tsx:23-35 | if every call within the limit throws, the result is null after exactly maxRetries+1 calls |
| `Retry.ResultComesFromLastCall` | src/Fetch/Retry.tsx:23-35 | a non-null result is what the last call returned, within the limit, and every earlier call threw |
| `Retry.NullIsNotRetried` | src/Fetch/Retry.tsx:29-30 | a returned null is passed on after one call, without retrying |
| `Retry.DefaultLimit` | src/Fetch/Retry.tsx:18-19 | with the default maxRetries = 3 the function is called at most four times |
| `Retry.AuthAttemptAsWritten` | src/Fetch/Retry.tsx:63-89 | the authenticated attempt as written, over the auth view captured at creation: it calls the wrapped function at most once |
| `Retry.LoadingNeverSettles` | src/Fetch/Retry.tsx:68-72 | as written, a request started while auth is loading never settles, however many attempts are looked at |
| `Retry.NoTokenGivesNull` | src/Fetch/Retry.tsx:74-81 | as written, without a token the attempts wait maxRetries times and give null without calling the function |
| `Retry.AuthAttempt` | src/Fetch/Retry.tsx:67-89 | with a live auth view the request always settles; it calls the function at most once, and exactly when it used a token |
| `Retry.AuthAttemptUsesFirstToken` | src/Fetch/Retry.tsx:74-84 | the function is called with the token of the first attempt that saw one after loading, after at most maxRetries tokenless attempts; loading waits are not counted |
| `Retry.LoadingWaitsKeepRetries` | src/Fetch/Retry.tsx:68-72 | waiting while loading adds only delays; the request ends as if it had started once loading was over |
| `Retry.LiveAgreesWhenSettled` | src/Fetch/Retry.tsx:63-89 | when auth has loaded before the first attempt and never changes, the live behaviour and the behaviour as written agree |
| `Retry.TokenCallsOnce` | src/Fetch/Retry.tsx:83-88 | a token at the first attempt means exactly one call with that token and no wait; a throw gives null without retrying |
| `AuthContext.AuthProvider.constructor` | src/Context/AuthContext.tsx:36-39 | not authenticated, no token, no user name, loading |
| `AuthContext.AuthProvider.InitializeAuth` | src/Context/AuthContext.tsx:42-51 | the session is restored iff both stored values are present and non-empty; loading ends; storage is only read; authenticated implies a known token and user name |
| `AuthContext.AuthProvider.Login` | src/Context/AuthContext.tsx:56-62 | both values are stored, and token, user name and authenticated are set from them |
| `AuthContext.AuthProvider.Logout` | src/Context/AuthContext.tsx:64-70 | both keys are removed and the session forgotten; other keys and the loading flag are unchanged |
| `AuthContext.AuthProvider.View` | src/Fetch/Retry.tsx:63 | the retry wrapper sees a token exactly when the session is authenticated, and the loading flag as it is |
| `AuthContext.Reload` | src/Context/AuthContext.tsx:41-54 | after a page load the session is authenticated iff storage holds a non-empty token and user name |
| `AuthContext.LoginSurvivesReload` | src/Context/AuthContext.tsx:56-62 | a login with non-empty values survives a reload with the same token and user name |
| `AuthContext.LogoutSurvivesReload` | src/Context/AuthContext.tsx:64-70 | after a logout a reload finds no session |
| `Home.FinishSeenAppend` | src/Components/Home/Home.tsx:50-54 | one more answer completes a finish iff it ends the processing that the previous answer reported |
| `Home.HomeState.constructor` | src/Components/Home/Home.tsx:20-23 | no scene, no progress, both flags false |
| `Home.HomeState.Poll` | src/Components/Home/Home.tsx:31-59 | without a truthy scene id, or with a null or error answer, nothing changes. Otherwise the answer becomes the progress and wasProcessing its flag. sceneFinished is set iff processing was seen and now is not, and at most one branch fires |
| `Home.HomeState.HandleUpload` | src/Components/Home/Home.tsx:62-68 | an answer with an error leaves the scene id; otherwise its id is polled |
| `Home.HomeState.FinishedOnlyAfterProcessing` | src/Components/Home/Home.tsx:50-54 | a finished scene was reported processing by some earlier poll |
| `Home.ProcessingThenDone` | src/Components/Home/Home.tsx:44-54 | a processing answer followed by a done answer marks the scene finished |
| `Scene.ParamOr` | src/Components/Scene/Scene.tsx:25-26 | a missing or empty URL parameter gives the fallback, any other value is kept |
| `Scene.UrlDefaults` | src/Components/Scene/Scene.tsx:24-26 | the scene id defaults to the empty string; the name is never empty and is "Unnamed Scene" iff missing, empty or literally that |
| `Scene.ResourcesOf` | src/Components/Scene/Scene.tsx:70 | the lookup finds a table iff some entry has the key; a found table is that of the last entry with the key, as JSON parsing keeps the last duplicate |
| `Scene.ResourceInfoOf` | src/Components/Scene/Scene.tsx:70-71 | resource info exists iff metadata is loaded, lists the type and lists the iteration for it |
| `Scene.ScenePage.constructor` | src/Components/Scene/Scene.tsx:24-36 | the page takes its id and name from the URL with their defaults, and starts loading with nothing selected |
| `Scene.ScenePage.FetchMetadata` | src/Components/Scene/Scene.tsx:43-52 | an answer is stored and its first output type becomes active (none for no types); a null answer changes neither; loading ends in every case |
| `Scene.ScenePage.HandleResourceSelect` | src/Components/Scene/Scene.tsx:58-62 | the type becomes active, and the shown iteration and output are cleared |
| `Scene.ScenePage.HandleIterationSelect` | src/Components/Scene/Scene.tsx:65-94 | a no-op without an active type. Otherwise a listed iteration is requested in 1 MiB chunks, and on success the output and iteration are set together. Missing info or a failed download sets the error and keeps both; loading ends either way |
| `Scene.RequestedBufferSize` | src/Components/Scene/Scene.tsx:73-80 | the page's download fills (chunks-1) MiB plus the last chunk size, and its last range ends at the buffer end |
| `SceneHistory.PageIds` | src/Components/SceneHistory/MantineSceneHistory.tsx:83 | a page shows at most n ids |
| `SceneHistory.TotalPages` | src/Components/SceneHistory/MantineSceneHistory.tsx:81 | totalPages is ceil(len/n): the fewest pages of n that hold len ids |
| `SceneHistory.PageOfIndex` | src/Components/SceneHistory/MantineSceneHistory.tsx:81-83 | the id at position k is shown on page p iff p = k/n + 1, a page in 1..totalPages |
| `SceneHistory.PagesUpToPrefix` | src/Components/SceneHistory/MantineSceneHistory.tsx:83 | pages 1..m, read in order, are the first m*n ids |
| `SceneHistory.AllPagesShowEverything` | src/Components/SceneHistory/MantineSceneHistory.tsx:81-83 | pages 1..totalPages, read in order, are exactly the id list |
| `SceneHistory.Uncached` | src/Components/SceneHistory/MantineSceneHistory.tsx:70-74 | the ids picked are exactly those of the list with no cache entry |
| `SceneHistory.SceneHistoryPage.constructor` | src/Components/SceneHistory/MantineSceneHistory.tsx:18-23 | no ids, empty cache, page 1 of 10, no error, loading |
| `SceneHistory.SceneHistoryPage.CurrentScenes` | src/Components/SceneHistory/MantineSceneHistory.tsx:83 | the current page shows at most scenesPerPage ids |
| `SceneHistory.SceneHistoryPage.PreviewsToLoad` | src/Components/SceneHistory/MantineSceneHistory.tsx:65-75 | exactly the current page's ids with no cache entry trigger loading |
| `SceneHistory.SceneHistoryPage.HandleSceneHistory` | src/Components/SceneHistory/MantineSceneHistory.tsx:29-37 | an answer replaces the ids, a null answer sets the error; loading ends on both paths |
| `SceneHistory.SceneHistoryPage.HandlePreview` | src/Components/SceneHistory/MantineSceneHistory.tsx:43-63 | a cached id is left alone. Otherwise only that key changes: to null after a failed thumbnail, else to the image with the fetched name or "Unknown" |
| `SceneHistory.SceneHistoryPage.HandlePageSizeChange` | src/Components/SceneHistory/MantineSceneHistory.tsx:108-111 | the page size changes and the current page resets to 1 |
| `SceneHistory.SceneHistoryPage.HandlePageChange` | src/Components/SceneHistory/MantineSceneHistory.tsx:115-118 | the chosen page becomes current |
| `SceneHistory.LoadCurrentPage` | src/Components/SceneHistory/MantineSceneHistory.tsx:65-75 | loading the picked previews caches every id of the current page and keeps every earlier entry; the only new entries are ids of the page, each holding the thumbnail with the fetched name (or "Unknown"), or null without a thumbnail |
| `Extensions.ResourceTypeToExtension` | src/Util/Extensions.ts:1-14 | the result is ".bin" iff the type is not one of the four known ones; every extension starts with a dot |
| `Extensions.KnownExtensions` | src/Util/Extensions.ts:3-10 | splat_cloud maps to .splat, point_cloud to .ply, video to .mp4, model to .th |
| `Extensions.KnownExtensionsDistinct` | src/Util/Extensions.ts:3-12 | distinct known types map to distinct extensions |
| `Extensions.OutputTypesHaveExtensions` | src/Util/Extensions.ts:3-10 | every output type some training mode offers is a known type with a non-default extension |

## Findings

| source | as written | input that shows it | evidently intended | confidence | as-written member | corrected member |
|---|---|---|---|---|---|---|
| src/Fetch/Retry.tsx:63-81 | `attempt` reads the `token` and `isAuthLoading` captured when the callback was created. A wait while loading re-attempts with the same captured flag, and a wait for a missing token re-reads the same captured null | a request issued on a page load before the provider's initializeAuth has run (isAuthLoading true). Its attempt chain waits forever, one timer per second, even after loading ends. A chain started with a null token can never see a token | each attempt reads the current auth state, so the wait ends when loading ends and a token that appears is used, as the hook's own comment describes | medium, not executed | `Retry.LoadingNeverSettles` | `Retry.AuthAttemptUsesFirstToken` |
| src/Components/Home/VideoUpload/ConfigSelector.tsx:110 | the select's onChange passes `value as string`, so a deselect stores null as the training mode | clicking the selected mode again, which deselects it in a Mantine select; the next render evaluates `VALID_OUTPUT_TYPES[null].map` and throws | a deselect leaves the mode unchanged, so a valid mode is always shown | medium, not executed | `ConfigSelector.DeselectBreaksRender` | `ConfigSelector.ModeChangeKeepsChoices` |

## Left out

- Depth sorting, record decoding and the shaders: the sort worker (`SortWorker.worker`) and `SplatShaders` are not part of this model. The model keeps only the messages exchanged with the worker, and a worker reply is an input.
- `FocalLength` and the screen uniforms: floating-point trigonometry. The three.js instanced geometry elements and the frame callback's early return before the mesh is attached are also left out.
- Network plumbing: `fetch`, headers, JSON parsing, `FormData`, `URLSearchParams`, blobs and object URLs. Each answer is an input: a status with body bytes, a parsed record, or null.
- Timing: the `setTimeout` waits of the retry wrappers are counted, not timed. The 15-second `setInterval` of the progress polling is not modelled, and each tick is a call of `Home.HomeState.Poll`. Asynchronous interleaving of handlers is not modelled; each handler is one atomic step.
- Progress percentages (Home and JobProgressCard): floating-point division, which can divide by zero.
- The purely presentational components, `Types/Functions.ts` and `Util/Constants.ts`: they hold no logic worth stating. The response types are used only as datatype shapes.
- `ConfigSelector.ConfigSelectorState.HandleIterationInput`: takes an integer. `Number(value)` can also give NaN or a fraction, and these are not modelled.
- `ConfigSelector.ConfigSelectorState.UpdateConfig`: the effect that calls it after every field change is not scheduled. The model has the method, and the upload panel receives the result through `HandleConfigChange`.
- `SceneHistory.SceneHistoryPage.HandlePageSizeChange`: requires one of the sizes the select offers. A deselected select gives `Number(null)`, a page size of 0, and that case is not modelled.
- `SceneHistory.SceneHistoryPage.HandlePreview`: the name and thumbnail requests of one call form one step. Two calls for the same id that both pass the cache check before either stores a preview are not modelled.
- `ConfigSelector.ConfigSelectorState.HandleTrainingModeChange`: the class uses the corrected handler, which ignores a deselect. The crash of the code as written is stated by `ConfigSelector.DeselectBreaksRender` (see Findings).
- `SplatMesh.SplatMeshState.Mount` and `SplatMesh.Lifetime`: model a production commit. In development, `<React.StrictMode>` (src/main.tsx:12) re-runs the effects once after mounting, while the flag seen by the closure is still set, so the initial buffer is posted twice; that re-run is not modelled.
- `SplatMesh.SplatMeshState.ReceiveData`: a new `data` prop is taken to be a new array object. A re-render with the same array runs no effect, and is not modelled.
- `SplatMesh.InstanceCount`: maxSplats and the counts are real numbers, as in JavaScript. The 16-bit index and float32 precision of the arrays are not modelled.
- `Retry.AuthAttemptAsWritten`: looks at no more than `fuel` attempts, because as written the chain may never end. A result of None means that the request did not settle within that many attempts.
- `Retry.FetchAttempt`: the wrapped function's arguments are left out, and so are the values a call might see. Only the outcome of each call is modelled.
- `CommonApiCalls.FetchSceneOutput`: the chunk count and sizes are natural numbers. Fractional or NaN numbers, and a failed allocation of a very large buffer, are not modelled.
