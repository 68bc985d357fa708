/** `VstsBuildStatus` of src/vstsbuildstatus.ts, the poller of the older revision: it
    follows one active build definition, kept in the state store, and shows the result
    of that definition's latest build. The file also holds the callback-style REST
    client it polls with, of which the model keeps the URLs and the parse of
    `getLatest`. As in the newer monitor, a tick is split into its request step and its
    completions, and the status bar calls and notifications are recorded in `events`. */
module LegacyBuildStatus {
  import opened Wrappers
  import Text
  import LegacyRestClient
  import LegacyStatusBar
  import Settings

  type Build = LegacyRestClient.Build
  type BuildDefinition = LegacyRestClient.BuildDefinition

  const UpdateIntervalInMilliseconds := 15000
  const SelectDefinitionText := "Select build definition"
  const ConnectivityErrorText := "Unable to connect"
  const ConnectivityErrorTooltip := "There was a problem trying to connect to your VSTS account"

  function ConnectionErrorMessage(account: string): string {
    "Unable to connect to the VSTS account " + account
  }

  // ---------------------------------------------------------------------------
  // VstsBuildRestClientImplementation

  function ApiBase(settings: Settings.Configuration): string {
    "https://" + settings.account + ".visualstudio.com/DefaultCollection/" + settings.project + "/_apis/build/"
  }

  /** The query of `getLatest`: the one most recent build of the definition. */
  function LatestUrl(settings: Settings.Configuration, definitionId: int): string {
    ApiBase(settings) + "builds?definitions=" + Text.IntToDecimal(definitionId) + "&$top=1&api-version=2.0"
  }

  function DefinitionsUrl(settings: Settings.Configuration): string {
    ApiBase(settings) + "definitions?api-version=2.0"
  }

  /** What `JSON.parse(data).value[0]` leaves in `result`: `null` when the body does not
      parse or has no `value` list, `undefined` when the list is empty. */
  datatype Latest = NullBuild | UndefinedBuild | Found(build: Build)

  /** The parse of `getLatest`; `body` is the body's `value` list, absent when the body
      is not JSON or has none. */
  function ParseLatest(body: Option<seq<Build>>): (r: Latest)
    ensures body.None? <==> r.NullBuild?
    ensures body.Some? && |body.value| == 0 <==> r.UndefinedBuild?
    ensures r.Found? ==> body.Some? && |body.value| > 0 && r.build == body.value[0]
  {
    if body.None? then NullBuild
    else if |body.value| == 0 then UndefinedBuild
    else Found(body.value[0])
  }

  /** The display of a latest build: Success for "succeeded", Error for any other
      truthy result, Loading for a falsy one. */
  function LatestKind(build: Build): (k: LegacyStatusBar.Kind)
    ensures k == LegacyStatusBar.Success <==> Text.IsTruthy(build.result) && build.result.value == "succeeded"
    ensures k == LegacyStatusBar.Error <==> Text.IsTruthy(build.result) && build.result.value != "succeeded"
    ensures k == LegacyStatusBar.Loading <==> !Text.IsTruthy(build.result)
  {
    if Text.IsTruthy(build.result) then
      if build.result.value == "succeeded" then LegacyStatusBar.Success else LegacyStatusBar.Error
    else LegacyStatusBar.Loading
  }

  function LatestTooltip(kind: LegacyStatusBar.Kind): string {
    match kind
    case Success => "Last build was completed successfully"
    case Error => "Last build failed"
    case _ => "Build in progress..."
  }

  /** One item of the definition quick pick. */
  datatype DefinitionPickItem = DefinitionPickItem(id: int, caption: string, description: string, definition: BuildDefinition)

  function DefinitionPickItems(definitions: seq<BuildDefinition>): (r: seq<DefinitionPickItem>)
    ensures |r| == |definitions|
    ensures forall i :: 0 <= i < |definitions| ==> r[i] == DefinitionPickItem(definitions[i].id, definitions[i].name,
        "Revision " + Text.IntToDecimal(definitions[i].revision), definitions[i])
  {
    seq(|definitions|, i requires 0 <= i < |definitions| =>
      DefinitionPickItem(definitions[i].id, definitions[i].name, "Revision " + Text.IntToDecimal(definitions[i].revision), definitions[i]))
  }

  // ---------------------------------------------------------------------------
  // VstsBuildStatus

  datatype Event =
    | StatusHidden
    | StatusShown(kind: LegacyStatusBar.Kind, text: string, tooltip: string)
    | ErrorNotified(message: string)
    | LatestRequested(url: string)
    | DefinitionsRequested(url: string)
    | QuickPickShown(items: seq<DefinitionPickItem>)

  /** What `showConnectionErrorMessage` adds. */
  function ConnectionError(account: string): seq<Event> {
    [StatusShown(LegacyStatusBar.ConnectivityError, ConnectivityErrorText, ConnectivityErrorTooltip),
     ErrorNotified(ConnectionErrorMessage(account))]
  }

  class VstsBuildStatus {
    var activeDefinition: Option<BuildDefinition>
    var settings: Settings.Configuration
    /** Whether `intervalId` holds a live interval. */
    var intervalId: bool
    ghost var liveIntervals: nat
    const state: Settings.Memento
    var events: seq<Event>

    ghost predicate Valid()
      reads this
    {
      liveIntervals == (if intervalId then 1 else 0)
    }

    /** Restores the active definition from the state store when one is stored, then
        begins the updates with the configuration's settings. */
    constructor(state: Settings.Memento, settings: Settings.Configuration)
      ensures Valid() && !intervalId
      ensures this.state == state && this.settings == settings
      ensures activeDefinition == state.Get(Settings.ActiveBuildDefinitionStateKey)
      ensures events == TickEvents(settings, activeDefinition)
    {
      this.state := state;
      this.settings := settings;
      activeDefinition := state.Get(Settings.ActiveBuildDefinitionStateKey);
      intervalId := false;
      liveIntervals := 0;
      events := [];
      new;
      BeginBuildStatusUpdates(settings);
    }

    /** `tryStartPeriodicStatusUpdate`: an interval is started only when none is live. */
    method TryStartPeriodicStatusUpdate()
      requires Valid()
      modifies this
      ensures Valid() && intervalId && liveIntervals == 1
      ensures activeDefinition == old(activeDefinition) && settings == old(settings) && events == old(events)
    {
      if !intervalId {
        intervalId := true;
        liveIntervals := liveIntervals + 1;
      }
    }

    /** `tryCancelPeriodicStatusUpdate`: the live interval, if any, is stopped. */
    method TryCancelPeriodicStatusUpdate()
      requires Valid()
      modifies this
      ensures Valid() && !intervalId && liveIntervals == 0
      ensures activeDefinition == old(activeDefinition) && settings == old(settings) && events == old(events)
    {
      if intervalId {
        intervalId := false;
        liveIntervals := liveIntervals - 1;
      }
    }

    /** `beginBuildStatusUpdates`: stop the interval, take the new settings, and tick. */
    method BeginBuildStatusUpdates(settings: Settings.Configuration)
      requires Valid()
      modifies this
      ensures Valid() && !intervalId
      ensures this.settings == settings && activeDefinition == old(activeDefinition)
      ensures events == old(events) + TickEvents(settings, activeDefinition)
    {
      TryCancelPeriodicStatusUpdate();
      this.settings := settings;
      UpdateStatus();
    }

    /** The request step of `updateStatus`: invalid settings stop the interval and hide
        the bar; no active definition asks for one and makes no request; otherwise the
        latest build of the active definition is asked for. */
    method UpdateStatus()
      requires Valid()
      modifies this
      ensures Valid()
      ensures activeDefinition == old(activeDefinition) && settings == old(settings)
      ensures events == old(events) + TickEvents(settings, activeDefinition)
      ensures intervalId == (old(intervalId) && Settings.IsValidSettings(settings.account, settings.password, settings.project))
    {
      if !Settings.IsValidSettings(settings.account, settings.password, settings.project) {
        TryCancelPeriodicStatusUpdate();
        events := events + [StatusHidden];
        return;
      }
      if activeDefinition.None? {
        events := events + [StatusShown(LegacyStatusBar.Information, SelectDefinitionText, "")];
        return;
      }
      events := events + [LatestRequested(LatestUrl(settings, activeDefinition.value.id))];
    }

    /** The `getLatest` callback: a status other than 200 shows the connection error and
        stops polling; no build (`null` or `undefined`, both `== null`) shows
        "no builds" and leaves the interval alone; a build shows its result and keeps
        the interval running. A request is only made with an active definition, and a
        definition once active is never cleared. */
    method OnLatest(latest: Latest, statusCode: int)
      requires Valid() && activeDefinition.Some?
      modifies this
      ensures Valid()
      ensures activeDefinition == old(activeDefinition) && settings == old(settings)
      ensures statusCode != 200 ==> !intervalId && events == old(events) + ConnectionError(settings.account)
      ensures statusCode == 200 && !latest.Found? ==>
        intervalId == old(intervalId)
        && events == old(events) + [StatusShown(LegacyStatusBar.NoBuilds, activeDefinition.value.name, "No builds found")]
      ensures statusCode == 200 && latest.Found? ==>
        var kind := LatestKind(latest.build);
        intervalId && events == old(events) + [StatusShown(kind, activeDefinition.value.name, LatestTooltip(kind))]
    {
      if statusCode != 200 {
        events := events + ConnectionError(settings.account);
        TryCancelPeriodicStatusUpdate();
        return;
      }
      if !latest.Found? {
        events := events + [StatusShown(LegacyStatusBar.NoBuilds, activeDefinition.value.name, "No builds found")];
        return;
      }
      var name := activeDefinition.value.name;
      if Text.IsTruthy(latest.build.result) {
        if latest.build.result.value == "succeeded" {
          events := events + [StatusShown(LegacyStatusBar.Success, name, "Last build was completed successfully")];
        } else {
          events := events + [StatusShown(LegacyStatusBar.Error, name, "Last build failed")];
        }
      } else {
        events := events + [StatusShown(LegacyStatusBar.Loading, name, "Build in progress...")];
      }
      TryStartPeriodicStatusUpdate();
    }

    /** The handler registered with `onError`: a transport error shows the connection
        error and stops polling. */
    method OnTransportError()
      requires Valid()
      modifies this
      ensures Valid() && !intervalId
      ensures activeDefinition == old(activeDefinition) && settings == old(settings)
      ensures events == old(events) + ConnectionError(settings.account)
    {
      events := events + ConnectionError(settings.account);
      TryCancelPeriodicStatusUpdate();
    }

    /** The request step of `openBuildDefinitionSelection`. */
    method OpenBuildDefinitionSelection()
      modifies this
      ensures events == old(events) + [DefinitionsRequested(DefinitionsUrl(settings))]
      ensures activeDefinition == old(activeDefinition) && settings == old(settings)
      ensures intervalId == old(intervalId) && liveIntervals == old(liveIntervals)
    {
      events := events + [DefinitionsRequested(DefinitionsUrl(settings))];
    }

    /** The `getDefinitions` callback and the pick after it: a status other than 200
        shows the connection error (the interval keeps running); a body that does not
        parse fails in `map` and ends the callback; otherwise the pick is shown, and a
        chosen definition becomes the active one, is stored under the state key, and
        is ticked at once. A dismissed pick changes nothing. */
    method OnDefinitions(response: Option<seq<BuildDefinition>>, statusCode: int, choice: Option<nat>)
      requires Valid()
      requires statusCode == 200 && response.Some? && choice.Some? ==> choice.value < |response.value|
      modifies this, state
      ensures Valid() && settings == old(settings)
      ensures statusCode != 200 ==>
        events == old(events) + ConnectionError(settings.account)
        && activeDefinition == old(activeDefinition) && intervalId == old(intervalId) && state.entries == old(state.entries)
      ensures statusCode == 200 && response.None? ==>
        events == old(events) && activeDefinition == old(activeDefinition)
        && intervalId == old(intervalId) && state.entries == old(state.entries)
      ensures statusCode == 200 && response.Some? && choice.None? ==>
        events == old(events) + [QuickPickShown(DefinitionPickItems(response.value))]
        && activeDefinition == old(activeDefinition) && intervalId == old(intervalId) && state.entries == old(state.entries)
      ensures statusCode == 200 && response.Some? && choice.Some? ==>
        var chosen := response.value[choice.value];
        && activeDefinition == Some(chosen)
        && state.entries == old(state.entries)[Settings.ActiveBuildDefinitionStateKey := Some(chosen)]
        && events == old(events) + [QuickPickShown(DefinitionPickItems(response.value))] + TickEvents(settings, Some(chosen))
        && intervalId == (old(intervalId) && Settings.IsValidSettings(settings.account, settings.password, settings.project))
    {
      if statusCode != 200 {
        events := events + ConnectionError(settings.account);
        return;
      }
      if response.None? {
        return;
      }
      events := events + [QuickPickShown(DefinitionPickItems(response.value))];
      if choice.Some? {
        activeDefinition := Some(response.value[choice.value]);
        state.Update(Settings.ActiveBuildDefinitionStateKey, activeDefinition);
        UpdateStatus();
      }
    }
  }

  /** What one tick adds, given the settings and the active definition. */
  function TickEvents(settings: Settings.Configuration, activeDefinition: Option<BuildDefinition>): (r: seq<Event>)
    ensures |r| == 1
    ensures r[0].StatusHidden? <==> !Settings.IsValidSettings(settings.account, settings.password, settings.project)
    ensures r[0].LatestRequested? <==> Settings.IsValidSettings(settings.account, settings.password, settings.project) && activeDefinition.Some?
  {
    if !Settings.IsValidSettings(settings.account, settings.password, settings.project) then [StatusHidden]
    else if activeDefinition.None? then [StatusShown(LegacyStatusBar.Information, SelectDefinitionText, "")]
    else [LatestRequested(LatestUrl(settings, activeDefinition.value.id))]
  }

  /** A failure stops polling in this revision: after a failed answer no interval is
      live, whatever ran before, and another tick needs a new `begin`, a pick or a
      timer the model no longer holds. */
  method FailureStopsPolling(state: Settings.Memento, settings: Settings.Configuration, definition: BuildDefinition, build: Build)
    returns (before: bool, after: bool)
    requires Settings.IsValidSettings(settings.account, settings.password, settings.project)
    requires state.Get(Settings.ActiveBuildDefinitionStateKey) == Some(definition)
    ensures before && !after
  {
    var status := new VstsBuildStatus(state, settings);
    status.OnLatest(Found(build), 200);
    before := status.intervalId;
    status.UpdateStatus();
    status.OnLatest(Found(build), 500);
    after := status.intervalId;
  }
}
