# Chromium browser logic, modelled and proved in Dafny

This project models nine self-contained pieces of Chromium's browser code and
proves properties of them. They cover sync, sign-in, downloads, extensions,
the app launcher, field trials and autofill. Each piece is one module, and
each module lives in its own file:

- `drive_metadata_keys.dfy` and `drive_metadata_store.dfy` model
  `DriveMetadataStore`, the in-memory side of the Drive sync file system's
  metadata store.
  - The store keeps these tables: incremental and disabled origins with
    their root directory ids, a reverse id→origin map, per-file metadata,
    the change stamp and a sticky database status.
  - Also modelled: the leveldb key formats and the schema-migration
    decision.
  - Writes to leveldb are kept as an append-only log of write batches.
- `syslogs.dfy` models the ChromeOS system-log parser. It reads `KEY=VALUE`
  lines, including `"""`-quoted multi-line values, into a dictionary, and maps
  log contexts to script arguments.
- `account_reconcilor.dfy` models the account reconcilor as its unit tests
  pin it down:
  - parsing of the ListAccounts response;
  - the refresh-token validation bookkeeping;
  - the sign-in/sign-out lifecycle;
  - the action diff a reconciliation pass issues (merge, add-to-chrome,
    logout-all).
- `download_delegate.dfy` (with `file_path.dfy` for the POSIX part of
  `base::FilePath`) models the download manager delegate's decisions:
  - auto-open by extension;
  - the danger classification;
  - the prompt and suggested-path rules;
  - the path-uniquifier branch.
- `navigation_observer.dfy` models the prompt that offers to re-enable a
  disabled extension whose permissions escalated.
- `webstore_provider.dfy` models the launcher's web store search:
  - the query gate;
  - the cache;
  - the placeholder that the first valid result replaces.
- `variations_service.dfy` models the variations service's bookkeeping:
  - the channel choice and the resource-request histogram mapping;
  - the reference date;
  - the seed server URL parameters;
  - the fetch gate and the branching on a fetch's completion.
- `data_model_wrapper.dfy` models the autofill dialog's data-model wrappers.
  Each wrapper class answers field types by its own `GetInfo` rules. Two loops
  copy those answers into the dialog's inputs and into a web form.
- `post_commit.dfy` models the sync engine's post-commit step. When the
  commit message fails to post, it clears the SYNCING bit on exactly the
  committed entries.

`wrappers.dfy` (Option), `strings.dfy` (find, trim, decimal rendering) and
`json.dfy` (the parsed JSON value tree) are shared helpers.

Where the C++ updates an object in place, the model is a class with
`modifies` clauses. Each method's `ensures` gives its whole new state in
terms of the old one. Pure decisions are functions, and the promised
properties are lemmas about them. Conditions the C++ checks with `DCHECK`
or `CHECK` become preconditions.

## Model

| member | source | states |
|---|---|---|
| DriveMetadataKeys.RemovePrefix | sync_file_system/drive_metadata_store.cc:61-65 | with the prefix present the input is prefix + result; otherwise the input comes back unchanged |
| DriveMetadataKeys.OriginAndPathToMetadataKey | sync_file_system/drive_metadata_store.cc:67-71 | the key starts with the metadata prefix, and after the prefix comes origin, one space, path |
| DriveMetadataKeys.MetadataKeyToOriginAndPath | sync_file_system/drive_metadata_store.cc:77-85 | splits the body after the prefix at its first space. With no space, both halves are the whole body (npos + 1 wraps to 0) |
| DriveMetadataKeys.MetadataKeyRoundTrip | sync_file_system/drive_metadata_store.cc:67-85 | splitting a key built from a space-free origin gives back that origin and the path, even when the path holds spaces |
| DriveMetadataKeys.MetadataKeySpaceInOrigin | sync_file_system/drive_metadata_store.cc:77-85 | a space inside the origin moves the split: origin "a b" with path "p" comes back as ("a", "b p") |
| DriveMetadataKeys.CreateKeyForOriginRoot | sync_file_system/drive_metadata_store.cc:179-190 | the key is the table's prefix followed by the origin |
| DriveMetadataKeys.KeyFamiliesDisjoint | sync_file_system/drive_metadata_store.cc:45-52 | incremental-origin, disabled-origin and metadata keys never collide |
| DriveMetadataKeys.OriginRootKeyInjective | sync_file_system/drive_metadata_store.cc:179-190 | two origin-root keys of one table are equal only for the same origin |
| DriveMetadataKeys.StringToInt64 | sync_file_system/drive_metadata_store.cc:773-798 | a parsed version is within 64 bits; "" does not parse; a value without '-' is non-negative |
| DriveMetadataKeys.Int64StringRoundTrip | sync_file_system/drive_metadata_store.cc:295-311 | the decimal text of any 64-bit change stamp parses back to that value |
| DriveMetadataKeys.DecimalValueOfNatToString | sync_file_system/drive_metadata_store.cc:295-305 | the rendered digits of n are all digits and read back as n |
| DriveMetadataKeys.MigrateDatabaseIfNeeded | sync_file_system/drive_metadata_store.cc:773-798 | a missing version key runs both migrations. Versions 0, 1 and 2 run the steps up to version 2. Anything unparsable, negative or above 2 fails with no step run |
| DriveMetadataKeys.MigrationReachesCurrentVersion | sync_file_system/drive_metadata_store.cc:773-798 | a successful migration runs exactly the steps from the stored version up to 2 |
| DriveMetadataKeys.MigrationExamples | sync_file_system/drive_metadata_store.cc:773-798 | "2" needs nothing, "1" needs one step, and "3", "x" and "-1" fail |
| DriveMetadataKeys.NextDBStatus | sync_file_system/drive_metadata_store.cc:539-552 | from OK or NOT_FOUND the status becomes OK; from any other status it takes the reported one |
| DriveMetadataKeys.HealthyStatusIsSticky | sync_file_system/drive_metadata_store.cc:539-552 | once healthy, the store is OK after any series of write completions |
| DriveMetadataKeys.BrokenStatusRecovery | sync_file_system/drive_metadata_store.cc:539-552 | a broken store recovers exactly when some write reports OK or NOT_FOUND; otherwise it holds the last reported status |
| DriveMetadataStore.InsertReverseMap | sync_file_system/drive_metadata_store.cc:201-206 | every forward id lands in the reverse map; existing reverse entries are never overwritten; every new entry points to an origin that has that id |
| DriveMetadataStore.AppendMetadataDeletionToBatch | sync_file_system/drive_metadata_store.cc:219-229 | one Delete per file of the origin, appended after the batch; nothing for an origin without metadata |
| DriveMetadataStore.AddOriginsToVector | sync_file_system/drive_metadata_store.cc:192-199 | appends each origin of the table exactly once after the given ones |
| DriveMetadataStore.UpdateResourceIdMap | sync_file_system/drive_metadata_store.cc:87-99 | true iff the origin is in the table. Then the origin's id is replaced and the old id leaves the reverse map unless it is the new one. The new id maps to the origin unless it already mapped to another origin, which it then keeps. Other ids are untouched |
| DriveMetadataStore.MetadataStore.constructor | sync_file_system/drive_metadata_store.cc:233-241 | all tables empty, status unknown, change stamp 0 |
| DriveMetadataStore.MetadataStore.DidInitialize | sync_file_system/drive_metadata_store.cc:264-289 | adopts the status. On success it takes the loaded tables and rebuilds the reverse map. Every loaded id is a key, and each key points back to an origin holding it. An id that an incremental origin holds resolves to an incremental origin. The map is consistent when the loaded ids are distinct |
| DriveMetadataStore.MetadataStore.SetLargestChangeStamp | sync_file_system/drive_metadata_store.cc:295-305 | stores the stamp and logs one Put of its decimal text |
| DriveMetadataStore.MetadataStore.ReadEntry | sync_file_system/drive_metadata_store.cc:367-382 | OK with the stored metadata exactly when both the origin and the path are present, else NOT_FOUND with nothing |
| DriveMetadataStore.MetadataStore.UpdateEntry | sync_file_system/drive_metadata_store.cc:313-341 | ReadEntry of that url afterwards returns OK with the new metadata, whether it inserted or overwrote. Every other url reads as before, and no other table changes |
| DriveMetadataStore.MetadataStore.DeleteEntry | sync_file_system/drive_metadata_store.cc:343-365 | NOT_FOUND when the origin or the path is missing; otherwise only that path is erased, and every other url reads as before |
| DriveMetadataStore.MetadataStore.AddIncrementalSyncOrigin | sync_file_system/drive_metadata_store.cc:384-401 | for an origin in neither table: afterwards incremental and not disabled, the id is in the forward and reverse maps, and reverse consistency is kept |
| DriveMetadataStore.MetadataStore.SetSyncRootDirectory | sync_file_system/drive_metadata_store.cc:403-413 | stores the root id, logs its Put and changes nothing else |
| DriveMetadataStore.MetadataStore.SetOriginRootDirectory | sync_file_system/drive_metadata_store.cc:415-440 | a known origin gets the new id in the table it is in (incremental first). The reverse map becomes UpdateResourceIdMap's for that table, and one Put for the root key is written |
| DriveMetadataStore.MetadataStore.EnableOrigin | sync_file_system/drive_metadata_store.cc:457-480 | no-op unless disabled. Otherwise the origin leaves both tables, but the reverse map is untouched, so the origin's id still resolves to it |
| DriveMetadataStore.MetadataStore.DisableOrigin | sync_file_system/drive_metadata_store.cc:482-500 | no-op unless incremental. Otherwise the id moves to the disabled table and all of the origin's file metadata is erased |
| DriveMetadataStore.MetadataStore.RemoveOrigin | sync_file_system/drive_metadata_store.cc:502-520 | no-op for an unknown origin. Otherwise it leaves its table, its id leaves the reverse map and its metadata is dropped |
| DriveMetadataStore.MetadataStore.UpdateDBStatus | sync_file_system/drive_metadata_store.cc:539-552 | the new status is NextDBStatus of the old one and the report; nothing else changes |
| DriveMetadataStore.MetadataStore.GetConflictURLs | sync_file_system/drive_metadata_store.cc:561-580 | exactly the urls whose metadata is marked conflicted |
| DriveMetadataStore.MetadataStore.GetToBeFetchedFiles | sync_file_system/drive_metadata_store.cc:582-602 | every to-be-fetched file once, with its metadata, and no conflicted one when entries are well formed |
| DriveMetadataStore.MetadataStore.GetResourceIdForOrigin | sync_file_system/drive_metadata_store.cc:604-624 | "" without a sync root; otherwise the id from the incremental table, then the disabled one, else "" |
| DriveMetadataStore.MetadataStore.GetAllOrigins | sync_file_system/drive_metadata_store.cc:626-634 | the incremental origins then the disabled ones, each known origin present, no duplicates when consistent |
| DriveMetadataStore.MetadataStore.GetOriginByOriginRootDirectoryId | sync_file_system/drive_metadata_store.cc:636-647 | the reverse map's origin for the id, or none |
| DriveMetadataStore.ResourceIdResolvesBack | sync_file_system/drive_metadata_store.cc:604-647 | with a consistent reverse map, looking up a known origin's id gives back that origin |
| DriveMetadataStore.ReverseConsistentMeansDistinctIds | sync_file_system/drive_metadata_store.cc:201-206 | a consistent reverse map forces distinct ids across both forward tables |
| Strings.Trim | chromeos/cros/syslogs_library.cc:57 | TrimString with TRIM_ALL: the result's ends are outside the set, and everything cut away is inside it |
| Syslogs.ReadKey | chromeos/cros/syslogs_library.cc:27-40 | without '=' the key is "" and the data is unchanged; otherwise data = key + "=" + rest with no '=' in the key, so the data shrinks |
| Syslogs.ReadQuotedValue | chromeos/cros/syslogs_library.cc:60-70 | the value is the text up to the next `"""` with both delimiters consumed; unterminated, both are "" |
| Syslogs.ReadLineValue | chromeos/cros/syslogs_library.cc:71-77 | the value is the text before the first CR or LF, and the line break stays in the buffer |
| Syslogs.ReadValue | chromeos/cros/syslogs_library.cc:45-78 | only spaces and tabs are trimmed first; then either the quoted or the single-line branch applies, and the data never grows |
| Syslogs.StoredValue | chromeos/cros/syslogs_library.cc:133-142 | non-UTF-8 is stored as the invalid-entry marker, an empty trimmed value as "<no value>", anything else trimmed |
| Syslogs.GetSystemLogs | chromeos/cros/syslogs_library.cc:127-147 | the while loop computes ParseLogs of the text from an empty dictionary |
| Syslogs.ParseLogsWellFormed | chromeos/cros/syslogs_library.cc:127-147 | every stored key is trimmed, non-empty and '='-free with a non-empty value, and parsing never drops a key |
| Syslogs.SystemLogsWellFormed | chromeos/cros/syslogs_library.cc:127-147 | the dictionary the parser returns is well formed |
| Syslogs.ParseStep | chromeos/cros/syslogs_library.cc:128-146 | one loop round stores the trimmed key's value and continues on the rest |
| Syslogs.EmptyValueKeepsNextLine | chromeos/cros/syslogs_library.cc:45-57 | "KEY1=\nKEY2=VALUE" gives KEY1 → "<no value>" and KEY2 → "VALUE" |
| Syslogs.NoEqualSignStops | chromeos/cros/syslogs_library.cc:29-31 | data without '=' ends the loop and adds nothing |
| Syslogs.UnterminatedQuoteEndsParse | chromeos/cros/syslogs_library.cc:60-66 | an unterminated `"""` value stores "<no value>" and ends the parse |
| Syslogs.DuplicateKeyOverwrites | chromeos/cros/syslogs_library.cc:133-142 | a later line with the same key replaces the earlier value |
| Syslogs.ContextStrings | chromeos/cros/syslogs_library.cc:281-295 | DEFAULT and SYSINFO both give "sysinfo", FEEDBACK "feedback", NETWORK "network", and only DEFAULT and SYSINFO share one |
| AccountReconcilor.AccountIdsOf | signin/account_reconcilor_unittest.cc:184-196 | no more ids than entries |
| AccountReconcilor.AccountIdsOfFromEntries | signin/account_reconcilor_unittest.cc:184-196 | every id is element 3 of some entry of the response |
| AccountReconcilor.AccountIdsOfAppend | signin/account_reconcilor_unittest.cc:319-333 | the ids of a split list are the ids of the two halves, in order |
| AccountReconcilor.AccountIdsOfWellFormed | signin/account_reconcilor_unittest.cc:184-196 | with every entry well formed, the k-th id is exactly the k-th entry's element 3 |
| AccountReconcilor.ParseListAccounts | signin/account_reconcilor_unittest.cc:180-215 | a result exactly when the response is a list whose second element is a list; the ids are those of its entries |
| AccountReconcilor.ListAccountsExample | signin/account_reconcilor_unittest.cc:184-196 | a response shaped like the tests' yields its two ids in order |
| AccountReconcilor.MergeMissing | signin/account_reconcilor_unittest.cc:348-367 | only merges; Merge(a) iff a is a valid chrome account missing from the session; no repeats; nothing when the session holds every valid chrome account |
| AccountReconcilor.MergeOthers | signin/account_reconcilor_unittest.cc:391-413 | only merges; Merge(a) iff a is a valid chrome account other than the primary; no repeats |
| AccountReconcilor.AddMissing | signin/account_reconcilor_unittest.cc:370-388 | AddToChrome(a, i) iff the session's account at index i is neither valid nor invalid; indices strictly increase |
| AccountReconcilor.AddMissingOnlyAdds | signin/account_reconcilor_unittest.cc:370-388 | the adds contain nothing but add-to-chrome actions |
| AccountReconcilor.AddMissingNone | signin/account_reconcilor_unittest.cc:281-346 | when validation covered every session account there is nothing to add |
| AccountReconcilor.DiffNormal | signin/account_reconcilor_unittest.cc:348-388 | with the primary first, the pass is the missing merges followed by the adds, with no logout |
| AccountReconcilor.DiffBadPrimary | signin/account_reconcilor_unittest.cc:391-413 | with another account first: logout-all, then the primary's merge unless the primary failed validation, then one merge per other valid account; Merge(a) is issued exactly for those accounts |
| AccountReconcilor.DiffIgnoresInvalid | signin/account_reconcilor_unittest.cc:240-279 | an account that failed validation is neither merged nor added, on either path, the primary included |
| AccountReconcilor.DiffConverged | signin/account_reconcilor_unittest.cc:281-346 | when the session equals the valid set with the primary first, the pass issues no action |
| AccountReconcilor.DiffHasNoDuplicates | signin/account_reconcilor_unittest.cc:348-413 | with distinct chrome accounts no action is issued twice |
| AccountReconcilor.ScenarioAlreadyConnected | signin/account_reconcilor_unittest.cc:281-308 | the test's one-account pass issues nothing |
| AccountReconcilor.ScenarioMergeMissing | signin/account_reconcilor_unittest.cc:348-368 | the test's second valid account is merged once |
| AccountReconcilor.ScenarioAddToChrome | signin/account_reconcilor_unittest.cc:370-389 | the session's unknown second account is added at index 1 |
| AccountReconcilor.ScenarioBadPrimary | signin/account_reconcilor_unittest.cc:391-414 | logout-all then a merge for each of the two accounts |
| AccountReconcilor.Reconcilor.constructor | signin/account_reconcilor_unittest.cc:136-178 | a profile signed in at creation runs periodic reconciliation and is registered with the token service |
| AccountReconcilor.Reconcilor.OnSigninCompleted | signin/account_reconcilor_unittest.cc:136-166 | sign-in (or re-auth) starts periodic reconciliation and registers; nothing else changes |
| AccountReconcilor.Reconcilor.OnSignedOut | signin/account_reconcilor_unittest.cc:136-151 | sign-out stops, unregisters and abandons the pass in flight. It drops the outstanding validations, so no account is pending and late answers change nothing |
| AccountReconcilor.ScenarioLateAnswersAfterSignOut | signin/account_reconcilor_unittest.cc:136-151 | after sign-out, a late ListAccounts answer and a late token answer leave the pass ended, with nothing recorded and no action |
| AccountReconcilor.Reconcilor.StartReconcile | signin/account_reconcilor_unittest.cc:416-439 | a no-op while a pass runs; otherwise a fresh pass with nothing fetched or checked, keeping Valid |
| AccountReconcilor.Reconcilor.FinishReconcileIfReady | signin/account_reconcilor_unittest.cc:281-439 | once both fetches are in, appends exactly the Diff's actions and ends the pass; otherwise nothing changes |
| AccountReconcilor.Reconcilor.OnListAccountsFetched | signin/account_reconcilor_unittest.cc:180-215 | the gaia list becomes the parsed ids, or stays empty on failure, and the pass may finish |
| AccountReconcilor.Reconcilor.ValidateAccountsFromTokenService | signin/account_reconcilor_unittest.cc:217-279 | in or out of a pass, the chrome accounts become the token service's and each of them is pending; the tokens count as checked only when there are none |
| AccountReconcilor.Reconcilor.OnAccountValidated | signin/account_reconcilor_unittest.cc:217-279 | a pending account lands in the valid set only when both calls succeed, else in the invalid set, never both, whether or not a pass runs. The diff runs only inside a pass once every account is answered and the gaia list is in. While any account is still pending, the pass neither ends nor acts, whatever the order of the answers |
| AccountReconcilor.ScenarioValidateAccountsFromTokens | signin/account_reconcilor_unittest.cc:217-279 | one account validated outside a pass: not checked before its answer, checked after; valid 1/invalid 0 on success, 0/1 on a userinfo or token failure |
| FilePaths.BaseName | download/chrome_download_manager_delegate.cc:368 | the final component contains no separator |
| FilePaths.Append | download/chrome_download_manager_delegate.cc:233 | one separator between a plain directory and the name; a current-directory base gives the name alone |
| FilePaths.BaseNameOfAppend | download/chrome_download_manager_delegate.cc:233 | appending a separator-free name makes it the base name |
| FilePaths.Extension | download/chrome_download_manager_delegate.cc:93 | the extension is "" or starts with the only '.' it has, and holds no separator |
| FilePaths.RemoveExtension | download/chrome_download_manager_delegate.cc:314-315 | the path without its extension, plus the extension, is the path |
| FilePaths.InsertBeforeExtensionKeepsExtension | download/chrome_download_manager_delegate.cc:314-315 | for a base name that is not empty, "." or ".." (those give the empty path), inserted text without '/' or '.' keeps the directory and the extension and sits right before the extension |
| DownloadDelegate.ShouldOpenFileBasedOnExtension | download/chrome_download_manager_delegate.cc:90-101 | true only for a non-empty extension of a non-package file |
| DownloadDelegate.AutoOpenByName | download/chrome_download_manager_delegate.cc:90-101 | for dir/stem.ext with a dot-free ext (not "crx"), it opens iff ext, without its dot, is in the auto-open set |
| DownloadDelegate.NoExtensionNeverOpens | download/chrome_download_manager_delegate.cc:93-95 | a path with no extension never auto-opens |
| DownloadDelegate.DangerRules | download/chrome_download_manager_delegate.cc:359-386 | Dangerous level: dangerous unless auto-open and gesture. AllowOnUserGesture: dangerous without a gesture or a visited referrer. An extension install not from the gallery: dangerous. Otherwise not |
| DownloadDelegate.GestureAndReferrerNeverAddDanger | download/chrome_download_manager_delegate.cc:366-375 | adding a user gesture or a visited referrer never makes a safe file dangerous |
| DownloadDelegate.CheckVisitedReferrerBeforeDone | download/chrome_download_manager_delegate.cc:181-253 | Posts nothing without an active item. Marks user scripts and extension MIME types as installs unless prompting. Prompts when the preference asks and the file is neither an install nor auto-open; a managed path never prompts. A forced name is used verbatim, else the generated name is appended to the last or the default directory. Danger is computed only when not prompting and no name is forced |
| DownloadDelegate.AppendNumberKeepsExtension | download/chrome_download_manager_delegate.cc:314-315 | for a base name that is not empty, "." or "..", " (n)" is inserted before the extension, keeping directory and extension |
| DownloadDelegate.CheckIfSuggestedPathExists | download/chrome_download_manager_delegate.cc:255-338 | An unwritable directory falls back to the documents folder. A dangerous file gets the temporary name in the original directory. Otherwise, with no forced name, a uniquifier above 0 is appended and reset to 0, and -1 turns prompting on |
| NavigationObserver.Observer.constructor | extensions/navigation_observer.cc:20-22 | no prompt in progress and nothing prompted |
| NavigationObserver.Observer.PromptToEnableExtensionIfNecessary | extensions/navigation_observer.cc:49-82 | Changes nothing while a prompt runs, without a candidate, or for an extension already considered. Otherwise it records the extension, and starts a prompt with that id and controller exactly when its permissions escalated |
| NavigationObserver.Observer.Observe | extensions/navigation_observer.cc:27-42 | other notifications and other profiles change nothing. For a committed navigation of this profile with a candidate not yet considered, the candidate is recorded; with escalated permissions it becomes the prompt in progress with that controller and one confirm effect, otherwise no prompt starts and no effect is added |
| NavigationObserver.Observer.InstallUIProceed | extensions/navigation_observer.cc:84-101 | clears the prompt, then grants permissions and re-enables the extension and reloads its tab |
| NavigationObserver.Observer.InstallUIAbort | extensions/navigation_observer.cc:103-118 | clears the prompt and only records the cancel or abort histogram |
| WebstoreProvider.Utf8Length | ui/app_list/search/webstore_provider.cc:58-60 | the UTF-8 length is between 1 and 4 bytes per character |
| WebstoreProvider.CreateResult | ui/app_list/search/webstore_provider.cc:147-167 | a result iff id, localized_name and icon_url are strings and the icon URL is valid, built from those three |
| WebstoreProvider.CreateResults | ui/app_list/search/webstore_provider.cc:125-144 | only web store results with valid icon URLs, at most one per entry |
| WebstoreProvider.CreateResultsAppend | ui/app_list/search/webstore_provider.cc:125-144 | each entry is judged on its own, in list order |
| WebstoreProvider.ResultList | ui/app_list/search/webstore_provider.cc:117-123 | a list only when the answer has a non-empty "results" list |
| WebstoreProvider.ProcessedProperties | ui/app_list/search/webstore_provider.cc:115-145 | processing is idempotent; without a results list nothing changes; a changed list holds no placeholder |
| WebstoreProvider.Provider.constructor | ui/app_list/search/webstore_provider.cc:41-44 | no query, no results, empty cache |
| WebstoreProvider.Provider.ProcessWebstoreSearchResults | ui/app_list/search/webstore_provider.cc:115-145 | the loop with its first-result flag leaves exactly Processed of the old results; nothing else changes |
| WebstoreProvider.Provider.Start | ui/app_list/search/webstore_provider.cc:48-90 | Always clears the results. Sensitive or short queries give no query and no results. A cache hit is shown at once and runs the callback. Otherwise the placeholder is shown, and a fetch is scheduled only when allowed |
| WebstoreProvider.Provider.StartQuery | ui/app_list/search/webstore_provider.cc:97-104 | posts the current query unless there is no fetcher or no query |
| WebstoreProvider.Provider.OnWebstoreSearchFetched | ui/app_list/search/webstore_provider.cc:106-113 | processes the answer, caches it under the query and runs the callback |
| WebstoreProvider.QueryLengthExamples | ui/app_list/search/webstore_provider.cc:58-63 | "ab" is too short, while "abc" and one three-byte character are long enough |
| VariationsService.GetChannelForVariations | metrics/variations/variations_service.cc:57-83 | a known browser channel never yields UNKNOWN |
| VariationsService.ForcedChannelRoundTrip | metrics/variations/variations_service.cc:70-82 | with no browser channel, exactly "stable", "beta", "dev" and "canary" select a channel, each its own |
| VariationsService.BrowserChannelWins | metrics/variations/variations_service.cc:57-67 | a known browser channel ignores the switch, and distinct channels map to distinct study channels |
| VariationsService.HistogramValue | metrics/variations/variations_service.cc:121-129 | every recorded value lies below the enumeration size |
| VariationsService.ResourceRequestStateToHistogramValue | metrics/variations/variations_service.cc:139-153 | ALLOWED, and only ALLOWED, maps to RESOURCE_REQUESTS_ALLOWED; no state maps to the two notification-only values |
| VariationsService.HistogramBucketsDistinct | metrics/variations/variations_service.cc:139-153 | the four notifier states land in four distinct buckets |
| VariationsService.ReferenceDateIsLatest | metrics/variations/variations_service.cc:205-212 | the build time when the seed date is null; otherwise the later of the seed date and the build time |
| VariationsService.FirstValue | metrics/variations/variations_service.cc:261-280 | none exactly when no parameter has that name |
| VariationsService.AppendOrReplace | metrics/variations/variations_service.cc:269-276 | the query keeps its length or grows by one pair |
| VariationsService.AppendOrReplaceLookup | metrics/variations/variations_service.cc:269-276 | afterwards the parameter reads the new value and every other parameter reads as before |
| VariationsService.AppendOrReplaceIdempotent | metrics/variations/variations_service.cc:269-276 | setting the same value twice equals setting it once |
| VariationsService.ServerUrlParameters | metrics/variations/variations_service.cc:261-280 | osname is the platform; restrict is the parameter when one is set, else whatever the URL had; the path is the switch or the default |
| VariationsService.PlainServerUrl | metrics/variations/variations_service.cc:261-280 | a query-free switch URL with no restrict parameter gets osname alone |
| VariationsService.Service.constructor | metrics/variations/variations_service.cc:172-193 | nothing requested, completed or retried yet |
| VariationsService.Service.CreateTrialsFromSeed | metrics/variations/variations_service.cc:198-240 | the called flag is set even on failure; trials are made only from a loaded seed and a valid version, against the reference date |
| VariationsService.Service.FetchVariationsSeed | metrics/variations/variations_service.cc:345-357 | records the notifier state's bucket and starts a fetch only when ALLOWED |
| VariationsService.Service.OnUrlFetchComplete | metrics/variations/variations_service.cc:359-431 | Every completion sets the completed flag. A failure retries soon only on the first request. 304 records both the fetch time and the seed date. 200 records the fetch time, and the response date as the seed date, only when the seed is stored. Other codes store nothing |
| AutofillWrappers.GetVariantForType | ui/autofill/data_model_wrapper.cc:192-198 | the wrapper's variant for a type of its variant group; a non-zero answer only for that group |
| AutofillWrappers.GetInfo | ui/autofill/data_model_wrapper.cc:135-401 | The empty wrapper answers "". Shipping addresses and wallet addresses and instruments give "" for e-mail. A local card gives "" outside the card group. The expiration month comes formatted. An unmapped field-map type gives "" |
| AutofillWrappers.ProfileAnswersCardNameFromBillingName | ui/autofill/data_model_wrapper.cc:156-167 | a card-name request reads the profile's billing name, at the variant chosen for the billing-name group |
| AutofillWrappers.VariantOnlyWithinItsGroup | ui/autofill/data_model_wrapper.cc:156-167 | for a type outside the variant group the profile's first variant is read, whatever variant the wrapper holds |
| AutofillWrappers.ShippingIsProfileWithoutEmail | ui/autofill/data_model_wrapper.cc:202-215 | the shipping wrapper equals a plain profile wrapper except that it gives "" for e-mail |
| AutofillWrappers.FieldMapRoundTrip | ui/autofill/data_model_wrapper.cc:398-401 | a value stored under a server type is read back for it, and other types read as before |
| AutofillWrappers.InitialValue | ui/autofill/data_model_wrapper.cc:37-44 | a non-empty hard-coded value wins; otherwise the wrapper's answer for the type |
| AutofillWrappers.EmptyWrapperFillsOnlyHardcoded | ui/autofill/data_model_wrapper.cc:135-137 | with the empty wrapper an input starts with its hard-coded value alone |
| AutofillWrappers.FillInputs | ui/autofill/data_model_wrapper.cc:37-44 | every input keeps its type and gets its InitialValue |
| AutofillWrappers.FilledForm | ui/autofill/data_model_wrapper.cc:108-126 | same length, and each field is the filled version of the field at its own position |
| AutofillWrappers.FilledFormFields | ui/autofill/data_model_wrapper.cc:113-123 | a matched field is filled with the wrapper's value for its own type, and an unmatched field is untouched |
| AutofillWrappers.AnyMatch | ui/autofill/data_model_wrapper.cc:108-126 | true iff some field matches some input |
| AutofillWrappers.FilledFormAppend | ui/autofill/data_model_wrapper.cc:113-124 | fields are filled independently of each other |
| AutofillWrappers.NoInputsFillNothing | ui/autofill/data_model_wrapper.cc:108-126 | with no inputs the form is untouched and nothing is reported filled |
| AutofillWrappers.FindMatchingInput | ui/autofill/data_model_wrapper.cc:115-122 | the inner loop finds a match iff some input stands for the field |
| AutofillWrappers.FillFormStructure | ui/autofill/data_model_wrapper.cc:108-126 | the nested loop with its break leaves exactly FilledForm of the old fields and returns AnyMatch |
| PostCommit.ClearSyncing | sync/engine/post_commit_message_command.cc:35-40 | same entries; each named entry loses SYNCING and keeps its other bits; every other entry is unchanged |
| PostCommit.ClearSyncingIdempotent | sync/engine/post_commit_message_command.cc:35-40 | clearing twice is clearing once |
| PostCommit.ClearSyncingDependsOnlyOnIdSet | sync/engine/post_commit_message_command.cc:36-40 | the order and repetition of commit ids do not matter |
| PostCommit.SyncSession.constructor | sync/engine/post_commit_message_command.cc:23-29 | nothing posted, committed or copied yet |
| PostCommit.SyncSession.ExecuteImpl | sync/engine/post_commit_message_command.cc:21-47 | With no commit ids it returns OK and touches nothing. A failed post returns its error, clears SYNCING on exactly the committed entries, and sets neither items-committed nor the response. A successful post sets items-committed, copies the response and returns OK |

## Left out

- leveldb opening, iteration and writes, thread checks, `PostTaskAndReplyWithResult` and protobuf (de)serialisation in the Drive metadata store: writes are an append-only log of batches, and loaded contents are a parameter of `DidInitialize`.
- The `drive::` WAPI resource-id prefix helpers are not modelled: resource ids are stored as given.
- The iteration order of `std::map`: where two origins of the same table share a resource id, which one the rebuilt reverse map keeps is left open. DriveMetadataStore.MetadataStore.GetToBeFetchedFiles and DriveMetadataStore.MetadataStore.GetAllOrigins promise their contents but not the key order within one table, which the source's map walk gives.
- `InitializeDBOnFileThread` and the database version read: the stored VERSION value is a parameter of `MigrateDatabaseIfNeeded`.
- The syslogs shell commands, temp files, bzip2 and FILE-thread plumbing; `IsStringUTF8` is a parameter predicate.
- Syslogs.GetContextString: the NOTREACHED default of the switch has no model; the context enum has only its four values.
- The account reconcilor's own implementation is not part of this model. Its behaviour is taken from the unit tests, and the token service, URL fetchers, run loops and profile factories are left out. The two fetches are events carrying their results.
- AccountReconcilor.Reconcilor.StartReconcile: after a failed ListAccounts fetch the pass stays in progress, and later StartReconcile calls do nothing, until sign-out. Nothing abandons the pass on a timer. The single-flight rule (the flag stays set until the diff has run) is followed instead of resetting the pass on a failed fetch, because the reconcilor's own code is not part of this model.
- AccountReconcilor.Diff: the tests never fix the order of merges for several missing accounts; the model merges in token-service order.
- A ListAccounts response that is not shaped as expected is treated like a failed fetch, and entries without a string at index 3 are skipped.
- JSON text parsing is not modelled: responses arrive as parsed values.
- `base::FilePath` is modelled for POSIX paths only. Trailing-separator stripping, Windows drive letters and double extensions such as ".tar.gz" are not modelled, and ".crx" is matched case-sensitively.
- Download file-system work is not modelled: `CreateDirectory`, `PathIsWritable`, `PathExists` and `WriteFile`. Writability is a parameter, and so is `GetUniquePathNumberWithCrDownload`'s answer.
- The `RandInt` retry loop that picks a temporary name is not modelled; the name it settles on is a parameter.
- Thread hops and safe-browsing clients in the download delegate are not modelled. `GetFileDangerLevel`, the gallery check and user-script detection are parameters.
- The install-prompt UI, the notification registrar and the histograms of the navigation observer are left out; effects are an ordered log.
- WebstoreProvider: the JSON fetcher, the field trial, the suggest preference and `IsSensitiveInput` are parameters. Throttling is a scheduled flag, and icon-URL validity is a parameter.
- WebstoreProvider.Provider.OnWebstoreSearchFetched: the cache is a map without MRU eviction. The cache's own `Put` is not part of this model; a null answer is taken to erase the query's entry.
- The locale in the web store search URL is left out.
- VariationsService: URLFetcher, `NetworkTimeTracker`, histograms other than ResourceRequestsAllowed, the command line, `Time::Now`, platform branches, `LoadSeed` and `StoreSeedData` become parameters. `OnResourceRequestsAllowed`, `StartRepeatedVariationsSeedFetch` and the request headers are not modelled.
- VariationsService.AppendOrReplace: URL escaping of names and values is not modelled, and VariationsService.ParseUrl does not split off a `#fragment`, which stays inside the last query value.
- Autofill display code is left out: `GetDisplayText`, `GetIcon`, `GetInfoForDisplay`, libaddressinput formatting and phone formatting.
- The autofill profile, card and wallet classes are functions from field type to text. `MonthComboboxModel::FormatMonth`'s output is a field of the card source.
- `common::GetHardcodedValueForType`, the input comparator and `AutofillField::FillFormField` are parameters. The application locale is left out.
- AutofillWrappers.TypeOf: the mapping from server type to storable type and group is not part of this model. `AutofillType` carries both explicitly, and `TypeOf` makes a server type its own storable type.
- The sync write transaction and its locking, and `PostClientToServerMessage` itself: its result and response are parameters of `ExecuteImpl`.
