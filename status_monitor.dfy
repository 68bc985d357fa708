/** `StatusMonitor` of src/StatusMonitor.ts: the poller of the newer revision. One
    tick (`updateStatus`) checks the settings, then the selection, then asks the REST
    client for the latest builds of the active definitions; the answer is folded
    into one status bar display, and a failure switches the monitor to retrying in
    the background. The tick is split into its request step (`UpdateStatus`) and
    its two completions (`OnBuildsReceived`, `OnBuildsFailed`); the status bar calls
    and error notifications are recorded, in order, in `events`. */
module StatusMonitor {
  import opened Wrappers
  import Text
  import RestClient
  import Settings
  import StatusBar

  type Build = RestClient.Build
  type BuildDefinition = RestClient.BuildDefinition

  datatype MonitorState = Initial | Connected | Retrying

  /** What the monitor asks the status bar to show: one of the kinds of StatusBar.ts, or
      the connecting display, which that file has no method for. */
  datatype DisplayKind = Bar(kind: StatusBar.Kind) | Connecting

  datatype Event =
    | StatusHidden
    | StatusShown(kind: DisplayKind, text: string, tooltip: Option<string>)
    | ErrorNotified(message: string)
    | BuildsRequested(ids: seq<int>, take: int)

  const NoSelectionMessage := "Select a single build definition or set an aggregated list of IDs in settings"
  const ConnectingText := "Connecting..."
  const ConnectingTooltip := "Attempting to connect to VSTS after having lost connection."

  function RetryingMessage(account: string): string {
    "Unable to connect to the VSTS account " + account + ". Attempting to reconnect in the background."
  }

  // ---------------------------------------------------------------------------
  // The fold of a build list into one display

  predicate Succeeded(b: Build) {
    Text.IsTruthy(b.result) && b.result.value == "succeeded"
  }

  /** The kind `handleResult` displays: the first build that has not succeeded decides,
      Loading when it has no result yet and Error when its result is another one;
      Success when there is no such build. */
  function Verdict(builds: seq<Build>): (k: StatusBar.Kind)
    ensures k == StatusBar.Success || k == StatusBar.Loading || k == StatusBar.Error
    decreases |builds|
  {
    if |builds| == 0 then StatusBar.Success
    else if !Text.IsTruthy(builds[0].result) then StatusBar.Loading
    else if builds[0].result.value != "succeeded" then StatusBar.Error
    else Verdict(builds[1..])
  }

  function TooltipOf(kind: StatusBar.Kind): string {
    match kind
    case Success => "Last build was completed successfully"
    case Loading => "Build in progress..."
    case _ => "Last build failed"
    }

  /** Builds that succeeded in front of the list do not change the verdict. */
  lemma {:induction false} VerdictSkipsSucceeded(builds: seq<Build>, k: nat)
    requires k <= |builds|
    requires forall j :: 0 <= j < k ==> Succeeded(builds[j])
    ensures Verdict(builds) == Verdict(builds[k..])
    decreases k
  {
    if k > 0 {
      assert builds[1..][k - 1..] == builds[k..];
      VerdictSkipsSucceeded(builds[1..], k - 1);
    }
  }

  /** Success exactly when every build succeeded, the empty list included. */
  lemma {:induction false} VerdictSuccess(builds: seq<Build>)
    ensures Verdict(builds) == StatusBar.Success <==> forall i :: 0 <= i < |builds| ==> Succeeded(builds[i])
    decreases |builds|
  {
    if |builds| > 0 {
      VerdictSuccess(builds[1..]);
      if Succeeded(builds[0]) {
        assert forall i :: 1 <= i < |builds| ==> builds[i] == builds[1..][i - 1];
      }
    }
  }

  /** Loading exactly when some build has no result and every build before it succeeded. */
  lemma {:induction false} VerdictLoading(builds: seq<Build>)
    ensures Verdict(builds) == StatusBar.Loading <==>
      exists i :: 0 <= i < |builds| && !Text.IsTruthy(builds[i].result) && forall j :: 0 <= j < i ==> Succeeded(builds[j])
    decreases |builds|
  {
    if |builds| > 0 {
      VerdictLoading(builds[1..]);
      if Verdict(builds) == StatusBar.Loading && Succeeded(builds[0]) {
        var i :| 0 <= i < |builds[1..]| && !Text.IsTruthy(builds[1..][i].result) && forall j :: 0 <= j < i ==> Succeeded(builds[1..][j]);
        assert builds[i + 1] == builds[1..][i];
        assert forall j :: 0 <= j < i + 1 ==> Succeeded(builds[j]) by {
          forall j | 0 <= j < i + 1 ensures Succeeded(builds[j]) {
            if j > 0 { assert builds[j] == builds[1..][j - 1]; }
          }
        }
      }
      if exists i :: 0 <= i < |builds| && !Text.IsTruthy(builds[i].result) && forall j :: 0 <= j < i ==> Succeeded(builds[j]) {
        var i :| 0 <= i < |builds| && !Text.IsTruthy(builds[i].result) && forall j :: 0 <= j < i ==> Succeeded(builds[j]);
        if i > 0 {
          assert Succeeded(builds[0]);
          assert builds[1..][i - 1] == builds[i];
          assert forall j :: 0 <= j < i - 1 ==> Succeeded(builds[1..][j]) by {
            forall j | 0 <= j < i - 1 ensures Succeeded(builds[1..][j]) {
              assert builds[1..][j] == builds[j + 1];
            }
          }
        }
      }
    }
  }

  /** Error exactly when some build has a result other than "succeeded" and every build
      before it succeeded. */
  lemma {:induction false} VerdictError(builds: seq<Build>)
    ensures Verdict(builds) == StatusBar.Error <==>
      exists i :: 0 <= i < |builds| && Text.IsTruthy(builds[i].result) && builds[i].result.value != "succeeded"
        && forall j :: 0 <= j < i ==> Succeeded(builds[j])
    decreases |builds|
  {
    if |builds| > 0 {
      VerdictError(builds[1..]);
      if Verdict(builds) == StatusBar.Error && Succeeded(builds[0]) {
        var i :| 0 <= i < |builds[1..]| && Text.IsTruthy(builds[1..][i].result) && builds[1..][i].result.value != "succeeded"
          && forall j :: 0 <= j < i ==> Succeeded(builds[1..][j]);
        assert builds[i + 1] == builds[1..][i];
        assert forall j :: 0 <= j < i + 1 ==> Succeeded(builds[j]) by {
          forall j | 0 <= j < i + 1 ensures Succeeded(builds[j]) {
            if j > 0 { assert builds[j] == builds[1..][j - 1]; }
          }
        }
      }
      if exists i :: 0 <= i < |builds| && Text.IsTruthy(builds[i].result) && builds[i].result.value != "succeeded"
           && forall j :: 0 <= j < i ==> Succeeded(builds[j]) {
        var i :| 0 <= i < |builds| && Text.IsTruthy(builds[i].result) && builds[i].result.value != "succeeded"
          && forall j :: 0 <= j < i ==> Succeeded(builds[j]);
        if i > 0 {
          assert Succeeded(builds[0]);
          assert builds[1..][i - 1] == builds[i];
          assert forall j :: 0 <= j < i - 1 ==> Succeeded(builds[1..][j]) by {
            forall j | 0 <= j < i - 1 ensures Succeeded(builds[1..][j]) {
              assert builds[1..][j] == builds[j + 1];
            }
          }
        }
      }
    }
  }

  /** The text of the result display: the group name when one is set and more than one
      definition is active, otherwise the first definition's name; absent when no
      definition is active any more, where reading `activeDefinitions[0].name` throws. */
  function DefinitionName(groupName: Option<string>, definitions: seq<BuildDefinition>): (r: Option<string>)
    ensures Text.IsTruthy(groupName) && |definitions| > 1 ==> r == groupName
    ensures !(Text.IsTruthy(groupName) && |definitions| > 1) && |definitions| > 0 ==> r == Some(definitions[0].name)
    ensures r.None? <==> |definitions| == 0
  {
    if Text.IsTruthy(groupName) && |definitions| > 1 then groupName
    else if |definitions| == 0 then None
    else Some(definitions[0].name)
  }

  /** `if (!this.connectionState) this.connectionState = MonitorState.Initial`: both an
      unset state and `Initial` (which is 0) are falsy. */
  function TickState(s: Option<MonitorState>): (r: Option<MonitorState>)
    ensures s.None? ==> r == Some(Initial)
    ensures s.Some? ==> r == s
  {
    if s.None? || s.value == Initial then Some(Initial) else s
  }

  // ---------------------------------------------------------------------------

  class StatusMonitor {
    var connectionState: Option<MonitorState>
    /** Whether `intervalTimer` holds a live interval. */
    var intervalTimer: bool
    /** How many intervals `setInterval` has started that `clearInterval` has not stopped. */
    ghost var liveIntervals: nat
    var activeDefinitions: seq<BuildDefinition>
    var settings: Settings.SettingsView
    var events: seq<Event>

    /** At most one interval is ever live, and it is the one the field holds. */
    ghost predicate Valid()
      reads this
    {
      liveIntervals == (if intervalTimer then 1 else 0)
    }

    constructor(settings: Settings.SettingsView)
      ensures Valid() && connectionState.None? && !intervalTimer
      ensures this.settings == settings && activeDefinitions == settings.activeBuildDefinitions && events == []
    {
      connectionState := None;
      intervalTimer := false;
      liveIntervals := 0;
      this.settings := settings;
      activeDefinitions := settings.activeBuildDefinitions;
      events := [];
    }

    /** `tryStartPeriodicStatusUpdate`: starts an interval only when none is live. */
    method TryStartPeriodicStatusUpdate()
      requires Valid()
      modifies this
      ensures Valid() && intervalTimer
      ensures liveIntervals == 1
      ensures connectionState == old(connectionState) && activeDefinitions == old(activeDefinitions)
      ensures settings == old(settings) && events == old(events)
    {
      if !intervalTimer {
        intervalTimer := true;
        liveIntervals := liveIntervals + 1;
      }
    }

    /** `tryCancelPeriodicStatusUpdate`: stops the interval when one is live. */
    method TryCancelPeriodicStatusUpdate()
      requires Valid()
      modifies this
      ensures Valid() && !intervalTimer
      ensures liveIntervals == 0
      ensures connectionState == old(connectionState) && activeDefinitions == old(activeDefinitions)
      ensures settings == old(settings) && events == old(events)
    {
      if intervalTimer {
        intervalTimer := false;
        liveIntervals := liveIntervals - 1;
      }
    }

    /** The request step of `updateStatus`: invalid settings stop the interval and hide
        the status bar; no active definition shows the selection hint and leaves the
        interval alone; otherwise one `getBuilds` request for the active definitions' ids,
        in order, with `take` their number. */
    method UpdateStatus()
      requires Valid()
      modifies this
      ensures Valid()
      ensures connectionState == TickState(old(connectionState))
      ensures activeDefinitions == old(activeDefinitions) && settings == old(settings)
      ensures !settings.IsValid() ==> !intervalTimer && events == old(events) + [StatusHidden]
      ensures settings.IsValid() && |activeDefinitions| == 0 ==>
        intervalTimer == old(intervalTimer) && events == old(events) + [StatusShown(Bar(StatusBar.Information), NoSelectionMessage, None)]
      ensures settings.IsValid() && |activeDefinitions| > 0 ==>
        intervalTimer == old(intervalTimer) && events == old(events) + [BuildsRequested(RestClient.DefinitionIds(activeDefinitions), |activeDefinitions|)]
    {
      if connectionState.None? || connectionState.value == Initial {
        connectionState := Some(Initial);
      }
      if !settings.IsValid() {
        TryCancelPeriodicStatusUpdate();
        events := events + [StatusHidden];
        return;
      }
      if |activeDefinitions| < 1 {
        events := events + [StatusShown(Bar(StatusBar.Information), NoSelectionMessage, None)];
        return;
      }
      events := events + [BuildsRequested(RestClient.DefinitionIds(activeDefinitions), |activeDefinitions|)];
    }

    /** `handleResult`: scans the builds in order and stops at the first one that has not
        succeeded; exactly one display, of the kind `Verdict` gives. */
    method HandleResult(definitionName: string, result: seq<Build>)
      modifies this
      ensures events == old(events) + [StatusShown(Bar(Verdict(result)), definitionName, Some(TooltipOf(Verdict(result))))]
      ensures connectionState == old(connectionState) && intervalTimer == old(intervalTimer) && liveIntervals == old(liveIntervals)
      ensures activeDefinitions == old(activeDefinitions) && settings == old(settings)
    {
      var succeeded := true;
      for k := 0 to |result|
        invariant succeeded && events == old(events)
        invariant forall j :: 0 <= j < k ==> Succeeded(result[j])
      {
        var build := result[k];
        if Text.IsTruthy(build.result) {
          if build.result.value != "succeeded" {
            VerdictSkipsSucceeded(result, k);
            events := events + [StatusShown(Bar(StatusBar.Error), definitionName, Some("Last build failed"))];
            succeeded := false;
            break;
          }
        } else {
          VerdictSkipsSucceeded(result, k);
          events := events + [StatusShown(Bar(StatusBar.Loading), definitionName, Some("Build in progress..."))];
          succeeded := false;
          break;
        }
      }
      if succeeded {
        VerdictSuccess(result);
        events := events + [StatusShown(Bar(StatusBar.Success), definitionName, Some("Last build was completed successfully"))];
      }
    }

    /** `handleError`: the error notification only on the first attempt after `begin`,
        then retrying, the connecting display, and the interval kept running. */
    method HandleError()
      requires Valid()
      modifies this
      ensures Valid() && intervalTimer
      ensures connectionState == Some(Retrying)
      ensures events == old(events)
        + (if old(connectionState) == Some(Initial) then [ErrorNotified(RetryingMessage(settings.account))] else [])
        + [StatusShown(Connecting, ConnectingText, Some(ConnectingTooltip))]
      ensures activeDefinitions == old(activeDefinitions) && settings == old(settings)
    {
      if connectionState == Some(Initial) {
        events := events + [ErrorNotified(RetryingMessage(settings.account))];
      }
      connectionState := Some(Retrying);
      events := events + [StatusShown(Connecting, ConnectingText, Some(ConnectingTooltip))];
      TryStartPeriodicStatusUpdate();
    }

    /** The completion of the `getBuilds` request when it resolves: connected; a response
        without a list shows "no builds" and starts no interval; a list is folded into
        one display and the interval is kept running. With no active definition left
        (the selection changed while the request ran) the name lookup throws, and the
        `catch` hands the error to `handleError`. */
    method OnBuildsReceived(response: RestClient.HttpResponse<Option<seq<Build>>>)
      requires Valid()
      modifies this
      ensures Valid()
      ensures activeDefinitions == old(activeDefinitions) && settings == old(settings)
      ensures var name := DefinitionName(settings.definitionsGroupName, activeDefinitions);
        name.None? ==>
          connectionState == Some(Retrying) && intervalTimer
          && events == old(events) + [StatusShown(Connecting, ConnectingText, Some(ConnectingTooltip))]
      ensures var name := DefinitionName(settings.definitionsGroupName, activeDefinitions);
        name.Some? && response.value.None? ==>
          connectionState == Some(Connected) && intervalTimer == old(intervalTimer)
          && events == old(events) + [StatusShown(Bar(StatusBar.NoBuilds), name.value, Some("No builds found"))]
      ensures var name := DefinitionName(settings.definitionsGroupName, activeDefinitions);
        name.Some? && response.value.Some? ==>
          connectionState == Some(Connected) && intervalTimer
          && events == old(events) + [StatusShown(Bar(Verdict(response.value.value)), name.value,
                                                  Some(TooltipOf(Verdict(response.value.value))))]
    {
      connectionState := Some(Connected);
      var name := DefinitionName(settings.definitionsGroupName, activeDefinitions);
      if name.None? {
        HandleError();
        return;
      }
      if response.value.None? {
        events := events + [StatusShown(Bar(StatusBar.NoBuilds), name.value, Some("No builds found"))];
        return;
      }
      HandleResult(name.value, response.value.value);
      TryStartPeriodicStatusUpdate();
    }

    /** The completion of the `getBuilds` request when it rejects, whatever the reason. */
    method OnBuildsFailed(error: RestClient.Rejection)
      requires Valid()
      modifies this
      ensures Valid() && intervalTimer
      ensures connectionState == Some(Retrying)
      ensures events == old(events)
        + (if old(connectionState) == Some(Initial) then [ErrorNotified(RetryingMessage(settings.account))] else [])
        + [StatusShown(Connecting, ConnectingText, Some(ConnectingTooltip))]
      ensures activeDefinitions == old(activeDefinitions) && settings == old(settings)
    {
      HandleError();
    }

    /** `begin`: stop the interval, start over from `Initial`, and tick. */
    method Begin()
      requires Valid()
      modifies this
      ensures Valid() && connectionState == Some(Initial)
      ensures activeDefinitions == old(activeDefinitions) && settings == old(settings)
      ensures !settings.IsValid() ==> !intervalTimer && events == old(events) + [StatusHidden]
      ensures settings.IsValid() && |activeDefinitions| == 0 ==>
        !intervalTimer && events == old(events) + [StatusShown(Bar(StatusBar.Information), NoSelectionMessage, None)]
      ensures settings.IsValid() && |activeDefinitions| > 0 ==>
        !intervalTimer && events == old(events) + [BuildsRequested(RestClient.DefinitionIds(activeDefinitions), |activeDefinitions|)]
    {
      TryCancelPeriodicStatusUpdate();
      connectionState := Some(Initial);
      UpdateStatus();
    }

    /** `stop`: only stops the interval. */
    method Stop()
      requires Valid()
      modifies this
      ensures Valid() && !intervalTimer
      ensures connectionState == old(connectionState) && activeDefinitions == old(activeDefinitions)
      ensures settings == old(settings) && events == old(events)
    {
      TryCancelPeriodicStatusUpdate();
    }

    /** The handler registered with the settings: take the new active definitions and begin. */
    method OnSettingsChanged(changed: Settings.SettingsView)
      requires Valid()
      modifies this
      ensures Valid() && connectionState == Some(Initial) && !intervalTimer
      ensures settings == changed && activeDefinitions == changed.activeBuildDefinitions
      ensures !changed.IsValid() ==> events == old(events) + [StatusHidden]
      ensures changed.IsValid() && |changed.activeBuildDefinitions| == 0 ==>
        events == old(events) + [StatusShown(Bar(StatusBar.Information), NoSelectionMessage, None)]
      ensures changed.IsValid() && |changed.activeBuildDefinitions| > 0 ==>
        events == old(events) + [BuildsRequested(RestClient.DefinitionIds(changed.activeBuildDefinitions), |changed.activeBuildDefinitions|)]
    {
      settings := changed;
      activeDefinitions := changed.activeBuildDefinitions;
      Begin();
    }
  }

  // ---------------------------------------------------------------------------
  // Runs of the monitor

  function CountNotifications(events: seq<Event>): nat
    decreases |events|
  {
    if |events| == 0 then 0 else (if events[0].ErrorNotified? then 1 else 0) + CountNotifications(events[1..])
  }

  function CountConnecting(events: seq<Event>): nat
    decreases |events|
  {
    if |events| == 0 then 0
    else (if events[0].StatusShown? && events[0].kind == Connecting then 1 else 0) + CountConnecting(events[1..])
  }

  lemma {:induction false} CountsAppend(a: seq<Event>, b: seq<Event>)
    ensures CountNotifications(a + b) == CountNotifications(a) + CountNotifications(b)
    ensures CountConnecting(a + b) == CountConnecting(a) + CountConnecting(b)
    decreases |a|
  {
    if |a| > 0 {
      assert (a + b)[1..] == a[1..] + b;
      CountsAppend(a[1..], b);
    } else {
      assert a + b == b;
    }
  }

  /** Two ticks of a fresh monitor whose requests both fail: one notification, two
      connecting displays, and the monitor retrying with its interval running. */
  method TwoFailedTicks(settings: Settings.SettingsView, first: RestClient.Rejection, second: RestClient.Rejection)
    returns (notifications: nat, connecting: nat, state: Option<MonitorState>, timer: bool)
    requires settings.IsValid() && |settings.activeBuildDefinitions| > 0
    ensures notifications == 1 && connecting == 2
    ensures state == Some(Retrying) && timer
  {
    var m := new StatusMonitor(settings);
    m.UpdateStatus();
    m.OnBuildsFailed(first);
    m.UpdateStatus();
    m.OnBuildsFailed(second);
    var e := m.events;
    var ids := RestClient.DefinitionIds(settings.activeBuildDefinitions);
    var n := |settings.activeBuildDefinitions|;
    var note := ErrorNotified(RetryingMessage(settings.account));
    var shown := StatusShown(Connecting, ConnectingText, Some(ConnectingTooltip));
    var req := BuildsRequested(ids, n);
    assert e == [req] + ([note] + ([shown] + ([req] + [shown])));
    CountsAppend([req], [shown]);
    CountsAppend([shown], [req] + [shown]);
    CountsAppend([note], [shown] + ([req] + [shown]));
    CountsAppend([req], [note] + ([shown] + ([req] + [shown])));
    notifications := CountNotifications(e);
    connecting := CountConnecting(e);
    state := m.connectionState;
    timer := m.intervalTimer;
  }

  /** One tick of a fresh monitor whose request resolves with a list: the request for
      every active definition, then exactly one display of the verdict, connected, and
      the interval running. */
  method SuccessfulTick(settings: Settings.SettingsView, builds: seq<Build>)
    returns (events: seq<Event>, state: Option<MonitorState>, timer: bool)
    requires settings.IsValid() && |settings.activeBuildDefinitions| > 0
    ensures var defs := settings.activeBuildDefinitions;
      events == [BuildsRequested(RestClient.DefinitionIds(defs), |defs|),
                 StatusShown(Bar(Verdict(builds)), DefinitionName(settings.definitionsGroupName, defs).value,
                             Some(TooltipOf(Verdict(builds))))]
    ensures state == Some(Connected) && timer
  {
    var m := new StatusMonitor(settings);
    m.UpdateStatus();
    m.OnBuildsReceived(RestClient.HttpResponse(200, Some(builds)));
    events := m.events;
    state := m.connectionState;
    timer := m.intervalTimer;
  }

  /** A tick with settings that are not valid hides the status bar and asks for nothing. */
  method InvalidSettingsTick(settings: Settings.SettingsView) returns (events: seq<Event>, timer: bool)
    requires !settings.IsValid()
    ensures events == [StatusHidden] && !timer
  {
    var m := new StatusMonitor(settings);
    m.UpdateStatus();
    events := m.events;
    timer := m.intervalTimer;
  }

  /** A tick with nothing selected shows the selection hint and asks for nothing. */
  method NoSelectionTick(settings: Settings.SettingsView) returns (events: seq<Event>, timer: bool)
    requires settings.IsValid() && |settings.activeBuildDefinitions| == 0
    ensures events == [StatusShown(Bar(StatusBar.Information), NoSelectionMessage, None)] && !timer
  {
    var m := new StatusMonitor(settings);
    m.UpdateStatus();
    events := m.events;
    timer := m.intervalTimer;
  }
}
