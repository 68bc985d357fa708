# vscode-vsts-build-status in Dafny

This project models the core of the VS Code extension that shows the status of
Azure DevOps (VSTS) builds in the status bar. The repository holds two revisions
side by side, and the model keeps them apart, as the sources do.

- **The newer revision.**
  - `StatusMonitor` polls the REST client for the latest builds of the active definitions and folds them into one status bar display. After a failure it keeps retrying in the background.
  - `VstsRestClientImpl` (node-fetch) builds the URLs, classifies responses into values and errors, flattens the log sections of a build, and posts queue requests.
  - `StatusBar` formats the status bar item.
  - `BuildLogViewer` streams a build log into an output channel, using a cursor over the log's message array.
  - `BuildQuickPicker` turns definitions and builds into pick items.
  - The three commands (queue a build, open its log, open it in the browser) and the `handleError`/`validateSettings` decorators.
- **The older revision.**
  - `VstsBuildStatus` follows one active definition, stored in the workspace state.
  - `VstsBuildRestClientImpl` (node-rest-client).
  - `VstsBuildStatusBar`.
  - `VstsBuildLogStreamHandler`.
- **Both revisions** use `WorkspaceVstsSettings`. It reloads the `vsts` configuration section, trimming every value, and restores the active definition from the state store.

How the model is built:

- **Objects whose fields the source updates** are classes: the monitors, the settings, the status bars, the log streamers and the log's message array. A ghost `Valid()` predicate states what they keep, for instance that at most one interval timer is live.
- **An asynchronous tick** is split into two steps. A request step records what is asked of the REST client. Completion methods take what the request settled to.
- **Everything the UI is asked to do** is appended to an event log, in order: status bar displays, notifications, output-channel lines and pick lists. The user's choices in a pick or an input box are parameters.
- **Code that only promise-chains and branches** is written as functions: the REST client's response handling, the pickers and the commands.
- **The JavaScript runtime behaviour the code depends on** is written out:
  - truthiness;
  - `Array.prototype.join`, and `split` on one character;
  - `Number.prototype.toString` for integers;
  - `String.prototype.trim`, with the ECMAScript whitespace set;
  - `Array.prototype.splice(start)`;
  - node-fetch's `ok` range (200 to 299) and its `FetchError` kinds;
  - `new Buffer(text).toString("base64")`, as UTF-8 followed by RFC 4648 base64.

Where the sources disagree with each other, each file is modelled as written:

- The newer consumers read `activeBuildDefinitions`, `definitionsGroup` and `definitionsGroupName`, which `settings.ts` does not declare. `Settings.SettingsView` holds them.
- `StatusMonitor` calls `displayConnecting`, which `StatusBar.ts` does not have. `StatusMonitor.DisplayKind` adds it.
- `vstsbuildlog.ts` calls `getBuild` and reads `id` and `status`, none of which the older client declares. `LegacyBuildLog.StreamedBuild` is the shape it reads.

## Model

| member | source | states |
|---|---|---|
| Text.SplitJoin | src/VstsRestClient.ts:93 | splitting a `,`-join of parts that contain no `,` gives back exactly those parts |
| Text.IntToDecimalRoundTrip | src/VstsRestClient.ts:93 | the decimal text of every integer placed in a URL reads back as that integer |
| Text.TrimSpec | src/settings.ts:99-102 | `trim` leaves the slice between two whitespace-only margins; the result is empty exactly when the value is all whitespace, and otherwise starts and ends with a non-whitespace character |
| Text.TrimIdempotent | src/settings.ts:99-102 | trimming a trimmed value changes nothing |
| NodeBuffer.Utf8RoundTrip | src/VstsRestClient.ts:228 | the UTF-8 bytes `Buffer` makes of a string decode back to that string |
| NodeBuffer.Base64Encode | src/VstsRestClient.ts:228 | base64 text is 4 characters for every started group of 3 bytes |
| NodeBuffer.Base64RoundTrip | src/VstsRestClient.ts:228 | decoding the base64 text of any byte string gives back those bytes |
| NodeBuffer.BasicAuthorization | src/VstsRestClient.ts:227-229 | the header starts with `Basic `, and the rest decodes to `username:password`; the older client's `getRequestArgs` (src/vstsbuildrestclient.ts:118-124) sends the same header |
| RestClient.Get | src/VstsRestClient.ts:166-191 | an unreachable server gives a system `FetchError` with its code; 401 gives the Unauthorized error, and any other non-ok status gives "VSTS request failed"; an ok status whose body is not JSON gives an invalid-json `FetchError`; an ok JSON body resolves with its status and the parsed value |
| RestClient.GetClassification | src/VstsRestClient.ts:166-191 | the result is an `HttpResponseError` exactly when the status is outside 200..299, and that error is the unauthorized one exactly when the status is 401; the result resolves exactly for an ok JSON answer, with the server's status |
| RestClient.GetSingle | src/VstsRestClient.ts:158-160 | it resolves with the body itself, and rejects exactly when `get` does, with the same reason (unauthorized, failed request, invalid JSON or the transport's code) |
| RestClient.GetMany | src/VstsRestClient.ts:162-164 | it resolves with the body's `value` property, and rejects exactly when `get` does, with the same reason (unauthorized, failed request, invalid JSON or the transport's code) |
| RestClient.DefinitionIds | src/StatusMonitor.ts:67 | the ids of the definitions, one per definition, in order |
| RestClient.JoinIdsRoundTrip | src/VstsRestClient.ts:93 | the id list in a builds query splits on `,` and reads back as the ids, in order |
| RestClient.BuildsUrlBatching | src/VstsRestClient.ts:92-96 | the query ends in `&maxBuildsPerDefinition=1` exactly when it names more than one definition, and in `&api-version=2.0` otherwise |
| RestClient.BuildsUrlTake | src/VstsRestClient.ts:92-93 | the number after `&$top=` reads back as the take given, or 5 when none is given |
| RestClient.NormaliseBuilds | src/VstsRestClient.ts:98-104 | a non-empty list comes back unchanged and a missing or empty one as `[]`; the status is kept and rejections pass through |
| RestClient.NormaliseBuildsIdempotent | src/VstsRestClient.ts:98-104 | normalising a normalised response changes nothing |
| RestClient.GetBuilds | src/VstsRestClient.ts:92-105 | asked at the builds URL, it resolves exactly for an ok JSON answer, with the body's list, or `[]` when the list is missing or empty |
| RestClient.GetBuild | src/VstsRestClient.ts:107-111 | asked at the build's URL, it resolves exactly for an ok JSON answer, and then with the build in the body; otherwise it rejects with `get`'s reason |
| RestClient.GetDefinitions | src/VstsRestClient.ts:136-140 | asked at the definitions URL, it resolves exactly for an ok JSON answer, with the body's `value`, left absent when the body has none; otherwise it rejects with `get`'s reason |
| RestClient.SectionOutcomes | src/VstsRestClient.ts:116-119 | one section request per log container, in container order, each for that container's section URL |
| RestClient.FirstRejection | src/VstsRestClient.ts:116-119 | `Promise.all` as the model orders it: nothing when every outcome resolved, otherwise the reason of the first rejected one |
| RestClient.CollectSections | src/VstsRestClient.ts:116-126 | it resolves exactly when every outcome resolved with a line list, and then with one list per outcome, in order; when some outcome rejected, the first rejection in container order is its reason |
| RestClient.FlattenLength | src/VstsRestClient.ts:120-126 | the flattened log has as many lines as all the sections together |
| RestClient.FlattenSections | src/VstsRestClient.ts:120-126 | the nested loops push every line of every section, in order, onto one list |
| RestClient.GetLog | src/VstsRestClient.ts:113-134 | the completion of `getLog` yields exactly the settled log `LogOf` defines |
| RestClient.LogOfContents | src/VstsRestClient.ts:113-134 | the containers are listed at the build's logs URL and each section at its own URL; a resolved log has status 200 and the build's id, and its messages are the flattening of one resolved section per container, in container order, with nothing lost |
| RestClient.LogOfResolves | src/VstsRestClient.ts:113-134 | the log resolves exactly when the container list resolved with a list and every section request resolved with lines; a rejected container list, or else the first rejected section, is the reason otherwise |
| RestClient.FirstFailure | src/VstsRestClient.ts:217-218 | nothing when every validation result is "ok", otherwise the message of the first entry that is not "ok" |
| RestClient.Post | src/VstsRestClient.ts:193-225 | 401 rejects as unauthorized before the body is read; a body that is not JSON rejects as invalid-json; a non-ok status with `ValidationResults` rejects with the first failing message and that status; a non-ok status without them rejects with `(0, Unknown, "Unknown error")`; the result resolves exactly for an ok JSON answer, with the body |
| RestClient.MakeQueueBuildBody | src/VstsRestClient.ts:145-153 | the body always holds the definition id, and it holds the branch exactly when the branch is truthy |
| RestClient.QueueBuild | src/VstsRestClient.ts:142-156 | the body `MakeQueueBuildBody` builds from the definition id and branch is posted to the builds URL; it resolves exactly when that POST was accepted, and then with the queued build; 401 is the unauthorized error |
| LegacyRestClient.Get | src/vstsbuildrestclient.ts:92-116 | only status 200 resolves, with the parsed `value` (absent when it does not parse); other statuses reject with "Status code indicated non-OK result " and the status; transport errors reject with the error |
| LegacyRestClient.BadStatusNamesStatus | src/vstsbuildrestclient.ts:98-99 | the status reads back from the rejection message |
| LegacyRestClient.BuildsUrlParameters | src/vstsbuildrestclient.ts:70-71 | the definition id and the take (5 by default) read back from their places in the query |
| LegacyRestClient.GetBuilds | src/vstsbuildrestclient.ts:70-80 | under 200, a non-empty list is kept as it is, and a missing or empty one becomes `[]` |
| LegacyRestClient.GetLatest | src/vstsbuildrestclient.ts:60-67 | it rejects exactly when the request does; otherwise status 200 with the first build, or the shared empty response when there is none |
| LegacyRestClient.GetDefinitions | src/vstsbuildrestclient.ts:86-90 | only status 200 resolves, with the parsed list |
| Settings.ReloadedValidity | src/settings.ts:62-103 | reloaded settings are valid exactly when account, password and project each contain a non-whitespace character; the user name plays no part |
| Settings.WorkspaceVstsSettings.constructor | src/settings.ts:30-47 | the active definition is what the state store holds under "vsts.active.definition"; the store is left as it was; the fields are the trimmed configuration; no handler is registered |
| Settings.WorkspaceVstsSettings.Reload | src/settings.ts:96-103 | every field becomes its configuration value trimmed, and nothing else changes |
| Settings.WorkspaceVstsSettings.SetActiveBuildDefinition | src/settings.ts:53-56 | the definition is remembered and stored under the state key |
| Settings.WorkspaceVstsSettings.OnDidChangeSettings | src/settings.ts:58-60 | a new handler replaces the old one |
| Settings.WorkspaceVstsSettings.OnConfigurationChanged | src/settings.ts:38-44 | the settings reload first, and only then is the registered handler called, if there is one |
| Settings.RestoreScenario | src/settings.ts:30-56 | a definition selected through one settings object is the active definition of the next one created over the same store |
| Settings.HandlerScenario | src/settings.ts:38-60 | after two registrations and a configuration change, exactly the later handler runs, after the reload |
| StatusBar.IconTellsKind | src/components/StatusBar.ts:8-30 | only information has no icon, and distinct kinds have distinct icons |
| StatusBar.ItemTextShape | src/components/StatusBar.ts:47-51 | the text is `VSTS Build: ` and the caller's text, followed by the icon reference exactly when there is an icon |
| StatusBar.StatusBar.Display | src/components/StatusBar.ts:42-58 | the item is created on first use only; it gets the formatted text; the old tooltip is kept unless a truthy one is given; the command is always the definition selection; the item is shown |
| StatusBar.StatusBar.HideStatusBarItem | src/components/StatusBar.ts:32-36 | hides the item; before the first display it changes nothing |
| LegacyStatusBar.CommandOf | src/vstsbuildstatusbar.ts:8-30 | information opens `extension.openVstsBuildSelection`, and every other kind opens `extension.openVstsBuildDefinitionSelection` |
| LegacyStatusBar.ItemTextShape | src/vstsbuildstatusbar.ts:47-51 | the icon reference follows the text exactly when the icon is non-empty |
| LegacyStatusBar.InformationAlone | src/vstsbuildstatusbar.ts:8-30 | of the six kinds, exactly information has the empty icon |
| LegacyStatusBar.VstsBuildStatusBar.Display | src/vstsbuildstatusbar.ts:43-56 | the item is created on first use only; text, tooltip (even an empty one) and the kind's command are all set; the item is shown |
| LegacyStatusBar.VstsBuildStatusBar.HideStatusBarItem | src/vstsbuildstatusbar.ts:32-36 | a no-op before the first display; afterwards it hides the item |
| StatusMonitor.Verdict | src/StatusMonitor.ts:84-103 | the fold of a build list is one of Success, Loading and Error |
| StatusMonitor.VerdictSkipsSucceeded | src/StatusMonitor.ts:86-98 | succeeded builds at the front do not change the verdict |
| StatusMonitor.VerdictSuccess | src/StatusMonitor.ts:84-103 | Success exactly when every build succeeded, the empty list included |
| StatusMonitor.VerdictLoading | src/StatusMonitor.ts:86-97 | Loading exactly when some build has a falsy result and every build before it succeeded |
| StatusMonitor.VerdictError | src/StatusMonitor.ts:86-92 | Error exactly when some build has a truthy result other than "succeeded" and every build before it succeeded |
| StatusMonitor.DefinitionName | src/StatusMonitor.ts:71 | the group name when it is truthy and more than one definition is active, otherwise the first definition's name; absent exactly when no definition is active |
| StatusMonitor.TickState | src/StatusMonitor.ts:51-53 | a tick sets an unset state to Initial, and keeps a state that was already set |
| StatusMonitor.StatusMonitor.constructor | src/StatusMonitor.ts:24-35 | no state, no interval, the settings' active definitions, nothing displayed |
| StatusMonitor.StatusMonitor.TryStartPeriodicStatusUpdate | src/StatusMonitor.ts:128-132 | afterwards exactly one interval is live, whether or not one was live before |
| StatusMonitor.StatusMonitor.TryCancelPeriodicStatusUpdate | src/StatusMonitor.ts:134-139 | afterwards no interval is live |
| StatusMonitor.StatusMonitor.UpdateStatus | src/StatusMonitor.ts:47-67 | invalid settings stop the interval and hide the bar; no active definition shows the selection hint; otherwise exactly one `getBuilds` request, for the ids in order with take equal to their number |
| StatusMonitor.StatusMonitor.HandleResult | src/StatusMonitor.ts:84-103 | the loop with `break` makes exactly one display, of the kind `Verdict` gives, with its tooltip |
| StatusMonitor.StatusMonitor.HandleError | src/StatusMonitor.ts:105-121 | the error notification appears only when the state was Initial; then Retrying, the connecting display, and a live interval |
| StatusMonitor.StatusMonitor.OnBuildsReceived | src/StatusMonitor.ts:68-81 | connected; a missing list shows "No builds found" and starts no interval; a list shows its verdict and keeps an interval live; with no active definition the name lookup throws and the error path runs |
| StatusMonitor.StatusMonitor.OnBuildsFailed | src/StatusMonitor.ts:81 | any rejection takes the error path |
| StatusMonitor.StatusMonitor.Begin | src/StatusMonitor.ts:37-41 | no interval, state Initial, then one tick |
| StatusMonitor.StatusMonitor.Stop | src/StatusMonitor.ts:43-45 | only stops the interval |
| StatusMonitor.StatusMonitor.OnSettingsChanged | src/StatusMonitor.ts:31-34 | the new active definitions are taken, then the monitor begins again |
| StatusMonitor.TwoFailedTicks | test/statusmonitor.test.ts:132-154 | two failing ticks of a fresh monitor give one notification and two connecting displays, and leave it retrying with an interval live |
| StatusMonitor.SuccessfulTick | test/statusmonitor.test.ts:47-130 | a tick that resolves gives the request and then exactly one display of the verdict; connected; an interval live |
| StatusMonitor.InvalidSettingsTick | test/statusmonitor.test.ts:17-29 | invalid settings only hide the bar, with no request and no interval |
| StatusMonitor.NoSelectionTick | test/statusmonitor.test.ts:31-45 | with nothing selected, only the hint is shown, with no request |
| JsArray.SpliceStart | src/components/BuildLogViewer.ts:40 | a cursor inside the array is where `splice` cuts, and one past its end cuts at the end |
| JsArray.StringArray.Splice | src/components/BuildLogViewer.ts:40 | it returns the elements from the cut on and keeps those before it; kept and returned make up the old array |
| LogStream.NewEntries | src/components/BuildLogViewer.ts:40-43 | the lines one poll appends are the messages from the cursor on; none when the list is not longer than the cursor |
| LogStream.Advance | src/components/BuildLogViewer.ts:45 | the cursor, moved on by the lines appended, lands on the end of the message list when it was inside it, and stays where it was when the list is not longer than it |
| LogStream.StreamDeliversOnce | src/components/BuildLogViewer.ts:40-45 | when each poll's list extends the previous one, the polls together append every message of the last list from the cursor on exactly once, in order, and leave the cursor at its end |
| LogStream.FreshStreamIsWholeLog | src/components/BuildLogViewer.ts:40-45 | from cursor 0, a growing log is delivered whole |
| BuildLogViewer.BuildLogViewer.ViewLog | src/components/BuildLogViewer.ts:13-22 | the channel is created only the first time; it is cleared and shown; then a poll; the cursor is not reset |
| BuildLogViewer.BuildLogViewer.GetNext | src/components/BuildLogViewer.ts:24-30 | the waiting line is appended exactly when the cursor is 0, and then the build is requested |
| BuildLogViewer.BuildLogViewer.OnTimerFired | src/components/BuildLogViewer.ts:54-56 | the interval polls the build it was started for |
| BuildLogViewer.BuildLogViewer.OnBuildReceived | src/components/BuildLogViewer.ts:30 | the log of the build that arrived is requested |
| BuildLogViewer.BuildLogViewer.OnPollCompleted | src/components/BuildLogViewer.ts:32-58 | a falsy log changes nothing. Otherwise the new entries are cut from the array and appended in order, and the cursor advances past them. A completed build then clears the interval, resets the cursor to 0 and appends the end line. A running build starts an interval only when none is live |
| BuildLogViewer.GrowingLogScenario | src/components/BuildLogViewer.ts:24-58 | three polls of a growing log show each line once, between the waiting line and the end line, and leave no interval |
| LegacyBuildLog.VstsBuildLogStreamHandler.StreamLogs | src/vstsbuildlog.ts:17-26 | the channel is created only the first time; it is cleared and shown; then the build is polled by its id |
| LegacyBuildLog.VstsBuildLogStreamHandler.GetNext | src/vstsbuildlog.ts:28-29 | only the build is requested |
| LegacyBuildLog.VstsBuildLogStreamHandler.OnTimerFired | src/vstsbuildlog.ts:47 | the interval polls the build it was started for |
| LegacyBuildLog.VstsBuildLogStreamHandler.OnBuildReceived | src/vstsbuildlog.ts:29-30 | the log is requested only after the build has arrived, and for that build |
| LegacyBuildLog.VstsBuildLogStreamHandler.OnLogReceived | src/vstsbuildlog.ts:30-49 | a falsy log changes nothing. Otherwise the new entries are cut and appended in order, and the cursor advances by their number. A completed build clears the interval and resets the cursor, with no end line. A running build starts an interval only when none is live |
| LegacyBuildLog.AbsentLogScenario | src/vstsbuildlog.ts:31-33 | an absent log leaves the output, the cursor and the interval as they were |
| BuildQuickPicker.GroupLabel | src/components/BuildQuickPicker.ts:36-38 | the group name when it is truthy, otherwise the group's ids joined with `,` |
| BuildQuickPicker.GroupLabelNamesIds | src/components/BuildQuickPicker.ts:36-38 | an unnamed group's label reads back as the group's ids, in order |
| BuildQuickPicker.DefinitionPickItems | src/components/BuildQuickPicker.ts:23-46 | one item per definition, in order, with its name, `Revision N`, its id and itself; then, exactly when a group is set, the group item last, with the group's ids and definitions and "Grouped Build Definition" |
| BuildQuickPicker.PickItemsCarryOwnIds | src/components/BuildQuickPicker.ts:23-43 | every item's ids are the ids of its definitions |
| BuildQuickPicker.ShowBuildDefinitionQuickPick | src/components/BuildQuickPicker.ts:59-78 | a rejection passes through; a response without a list faults; a dismissed pick gives null; a definition item gives that one definition; the group item gives the group |
| BuildQuickPicker.BuildPickQuery | src/components/BuildQuickPicker.ts:81 | the build picker asks for the builds of one definition, take 10, not batched |
| BuildQuickPicker.BuildPickItems | src/components/BuildQuickPicker.ts:48-57 | one item per build, in order, with the locale label of its queue time, its result and itself |
| BuildQuickPicker.ShowBuildQuickPick | src/components/BuildQuickPicker.ts:80-99 | a rejection passes through; a dismissed pick gives null; otherwise the chosen build |
| Decorators.ErrorHandler | src/commands/Decorators.ts:5-29 | no message exactly for a falsy error; otherwise one message, in this priority: unauthorized `HttpResponseError`, code ENOTFOUND, type invalid-json, generic |
| Decorators.ErrorHandlerByKind | src/commands/Decorators.ts:10-28 | which message each kind of rejection gets: 401 versus other statuses, system errors by code, parse errors, other errors |
| Decorators.HandleError | src/commands/Decorators.ts:31-42 | a resolved result passes through with no message; a rejection resolves empty, with the handler's message |
| Decorators.ValidateSettings | src/commands/Decorators.ts:44-59 | the command is invoked exactly when the settings are valid, and then its result is returned unchanged; otherwise the information message is shown |
| Decorators.ValidateSettingsNeedsThreeFields | src/commands/Decorators.ts:47-50 | the command runs exactly when account, password and project are non-empty |
| Commands.QueueBuildCommand | src/commands/QueueBuildCommand.ts:12-48 | a rejected definition pick does nothing. A resolved one always prompts for the branch first. A group shows the information message and queues nothing. A dismissed pick, a dismissed branch prompt or an empty list leaves the prompt alone. One definition with a branch queues that definition on that branch, and a queued build is announced by its definition's name |
| Commands.QueueBuildOnlySingle | src/commands/QueueBuildCommand.ts:23-36 | a build is queued exactly when one definition was picked and a branch (possibly empty) was given, and then it is that definition on that branch |
| Commands.OpenBuildLogCommand | src/commands/OpenBuildLogCommand.ts:16-37 | a dismissed or failed pick, or an empty list, does nothing; a group only shows the information message; one definition opens the build picker for its id, and a chosen build's log is viewed |
| Commands.OpenBuildLogViewsOnlyChosen | src/commands/OpenBuildLogCommand.ts:30-36 | a log is viewed exactly when one definition and then a build were picked |
| Commands.OpenBuildInBrowserCommand | src/commands/OpenBuildInBrowserCommand.ts:14-34 | a dismissed pick or an empty list does nothing; a group shows the information message and still goes on with its first definition; the build picker opens for that id, and a chosen build's web link is opened |
| Commands.OpenInBrowserOpensOnlyChosen | src/commands/OpenBuildInBrowserCommand.ts:27-33 | a URL is opened exactly when some definition and then a build were picked, and it is that build's web link |
| LegacyBuildStatus.ParseLatest | src/vstsbuildstatus.ts:57-66 | null exactly when the body does not parse; undefined exactly for an empty list; otherwise the first build |
| LegacyBuildStatus.LatestKind | src/vstsbuildstatus.ts:175-183 | Success exactly for "succeeded", Error exactly for any other truthy result, Loading exactly for a falsy one |
| LegacyBuildStatus.DefinitionPickItems | src/vstsbuildstatus.ts:197-204 | one item per definition, in order, with its id, name, `Revision N` and itself |
| LegacyBuildStatus.TickEvents | src/vstsbuildstatus.ts:148-161 | a tick does exactly one thing: it hides the bar exactly when the settings are invalid, and it requests the latest build exactly when they are valid and a definition is active |
| LegacyBuildStatus.VstsBuildStatus.constructor | src/vstsbuildstatus.ts:113-130 | the active definition is restored from "vsts.active.definition", then the updates begin with the given settings |
| LegacyBuildStatus.VstsBuildStatus.TryStartPeriodicStatusUpdate | src/vstsbuildstatus.ts:230-234 | afterwards exactly one interval is live |
| LegacyBuildStatus.VstsBuildStatus.TryCancelPeriodicStatusUpdate | src/vstsbuildstatus.ts:236-241 | afterwards no interval is live |
| LegacyBuildStatus.VstsBuildStatus.BeginBuildStatusUpdates | src/vstsbuildstatus.ts:132-142 | the interval is stopped, the new settings are taken, then one tick |
| LegacyBuildStatus.VstsBuildStatus.UpdateStatus | src/vstsbuildstatus.ts:144-161 | invalid settings stop the interval and hide the bar; no active definition shows 'Select build definition' with no request; otherwise the latest build of the active definition is requested |
| LegacyBuildStatus.VstsBuildStatus.OnLatest | src/vstsbuildstatus.ts:161-186 | a status other than 200 shows the connectivity error and the notification, and stops the interval; no build shows "No builds found" and leaves the interval alone; a build shows `LatestKind` with its tooltip and keeps an interval live |
| LegacyBuildStatus.VstsBuildStatus.OnTransportError | src/vstsbuildstatus.ts:136-139 | a transport error shows the connection error and stops the interval |
| LegacyBuildStatus.VstsBuildStatus.OpenBuildDefinitionSelection | src/vstsbuildstatus.ts:189-190 | the definitions are requested |
| LegacyBuildStatus.VstsBuildStatus.OnDefinitions | src/vstsbuildstatus.ts:190-218 | a status other than 200 shows the connection error and keeps the interval; an unparsed body changes nothing; otherwise the pick is shown; a chosen definition becomes active, is stored under the state key and is ticked, and that tick stops the interval exactly when the settings are invalid; a dismissed pick changes nothing else |
| LegacyBuildStatus.FailureStopsPolling | src/vstsbuildstatus.ts:161-167 | in this revision one failed answer leaves no interval live, even after a successful one |

## Left out

- HTTP transport and JSON parsing (node-fetch, node-rest-client): responses are inputs that are already parsed.
  - `Fetched` (newer client) and `Reply` (older client) carry the status, the parsed body, or a parse failure, or the transport error's code.
  - Response bodies are taken to be JSON objects. A `null` or primitive body is not modelled. On such a body, `getMany`'s `data => data.value` (src/VstsRestClient.ts:162-164) would throw a TypeError, and so would `"ValidationResults" in object` in a non-ok POST (src/VstsRestClient.ts:48-50, 216); either way the request rejects.
  - The newer client's requests take the server as a parameter: a function from the URL (and, for a POST, the body) to what it answers.
- The concurrency of `Promise.all`: the section requests of `getLog` settle to a sequence in container order, and the first rejection in that order is the one reported.
  - Which rejection wins when several requests fail at once is not modelled.
- Timers: an interval is a field plus a ghost count of live intervals, and a timer firing is a method call.
  - The periods (15 s for the monitors, 5 s for the log streamers) and real time are not modelled.
- VS Code UI: status bar calls, notifications, output-channel lines and pick lists are appended to event logs, and user choices are parameters.
  - The two monitors record their display calls rather than drive a `StatusBar` object.
  - The formatting those calls get is modelled separately, by `StatusBar.StatusBar.Display` and `LegacyStatusBar.VstsBuildStatusBar.Display`.
- `new Date(build.queueTime).toLocaleString()` (src/components/BuildQuickPicker.ts:51): locale formatting is a function parameter that the model does not define.
- `openurl.open` (src/commands/OpenBuildInBrowserCommand.ts:32): only the href is recorded.
- `dispose` methods, src/Telemetry.ts, src/extension.ts and src/commands/SelectBuildDefinitionCommand.ts: lifecycle glue, foreign setup and registration, not modelled.
- `Settings.createFromWorkspaceConfiguration` (src/vstsbuildstatus.ts:134) and `getDefaultSettings` (src/commands/Decorators.ts:47) are not defined in src/settings.ts; the model takes the settings they would return as parameters.
- The older client's `getLog` returns `null` (src/vstsbuildrestclient.ts:82-84), so the older log streamer could never reach a log through it: not modelled. The streamer is given the log it asks for.
- `StatusMonitor.showConnectionErrorMessage` (src/StatusMonitor.ts:123-126) is never called, and is not modelled.
- Configuration values are taken to be strings. A missing key, which would make `trim` throw in src/settings.ts:99-102, is not modelled.
- Errors thrown inside the older revision's callbacks end the callback and are modelled as "nothing more happens". An example is `response.map` on an unparsed body in src/vstsbuildstatus.ts:197.
- Text: strings are sequences of Unicode scalar values. JavaScript's UTF-16 code units, including lone surrogates that `Buffer` replaces by U+FFFD, are not modelled. `Number.prototype.toString` is modelled for integers only.
- StatusMonitor.StatusMonitor.HandleResult: the `else if (result)` guard at src/StatusMonitor.ts:93 is always true for an array, so the model leaves it out.
- StatusMonitor.StatusMonitor.OnBuildsReceived: the model takes the response's list as optional, although the newer client always resolves with a list. This is the case the source guards at src/StatusMonitor.ts:73.
- Text.Trim: its own contract only bounds the length; what it removes is stated by `Text.TrimSpec`.
- RestClient.LogOf states no contract of its own. `RestClient.LogOfResolves` states when it resolves and why it rejects. `RestClient.LogOfContents` states what a resolved log holds, and `RestClient.GetLog` ties the completion method to it.
