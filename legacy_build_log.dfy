/** `VstsBuildLogStreamHandler` of src/vstsbuildlog.ts, the older twin of the build log
    viewer: the same cursor over the log's message array, without the waiting and end
    lines, and with the log asked for only once the build has arrived. The handler
    calls `getBuild` and reads `id` and `status` from builds, none of which the legacy
    REST client declares; the model gives it the build shape it reads. */
module LegacyBuildLog {
  import opened Wrappers
  import JsArray
  import LogStream

  /** The part of a build the handler reads. */
  datatype StreamedBuild = StreamedBuild(id: int, status: string)

  datatype Request = BuildRequested(buildId: int) | LogRequested(build: StreamedBuild)

  class VstsBuildLogStreamHandler {
    var channelCreated: bool
    var output: seq<LogStream.OutputEvent>
    /** The build id the live interval polls, when one is live. */
    var intervalTimer: Option<int>
    ghost var liveIntervals: nat
    var currentLogIndex: nat
    var requests: seq<Request>

    ghost predicate Valid()
      reads this
    {
      && liveIntervals == (if intervalTimer.Some? then 1 else 0)
      && (channelCreated <==> |output| > 0)
      && LogStream.CreatedOnceFirst(output)
    }

    constructor()
      ensures Valid() && !channelCreated && output == [] && intervalTimer.None?
      ensures currentLogIndex == 0 && requests == []
    {
      channelCreated := false;
      output := [];
      intervalTimer := None;
      liveIntervals := 0;
      currentLogIndex := 0;
      requests := [];
    }

    /** `streamLogs`: creates the channel the first time only, clears and shows it,
        and polls the build; the cursor is left as it is. */
    method StreamLogs(build: StreamedBuild)
      requires Valid()
      modifies this
      ensures Valid() && channelCreated
      ensures output == old(output)
        + (if old(channelCreated) then [] else [LogStream.ChannelCreated(LogStream.ChannelName)])
        + [LogStream.Cleared, LogStream.Shown]
      ensures requests == old(requests) + [BuildRequested(build.id)]
      ensures currentLogIndex == old(currentLogIndex) && intervalTimer == old(intervalTimer)
    {
      if !channelCreated {
        channelCreated := true;
        output := output + [LogStream.ChannelCreated(LogStream.ChannelName)];
      }
      LogStream.CreatedOnceFirstGrows(output, [LogStream.Cleared, LogStream.Shown]);
      output := output + [LogStream.Cleared, LogStream.Shown];
      GetNext(build.id);
    }

    /** The request step of `getNext`: only the build is asked for. */
    method GetNext(buildId: int)
      modifies this
      ensures requests == old(requests) + [BuildRequested(buildId)]
      ensures output == old(output) && channelCreated == old(channelCreated) && currentLogIndex == old(currentLogIndex)
      ensures intervalTimer == old(intervalTimer) && liveIntervals == old(liveIntervals)
    {
      requests := requests + [BuildRequested(buildId)];
    }

    /** The live interval fires: a poll of the build it was started for. */
    method OnTimerFired()
      requires intervalTimer.Some?
      modifies this
      ensures requests == old(requests) + [BuildRequested(old(intervalTimer).value)]
      ensures output == old(output) && channelCreated == old(channelCreated) && currentLogIndex == old(currentLogIndex)
      ensures intervalTimer == old(intervalTimer) && liveIntervals == old(liveIntervals)
    {
      GetNext(intervalTimer.value);
    }

    /** The build arrived: only now is its log asked for. */
    method OnBuildReceived(build: StreamedBuild)
      modifies this
      ensures requests == old(requests) + [LogRequested(build)]
      ensures output == old(output) && channelCreated == old(channelCreated) && currentLogIndex == old(currentLogIndex)
      ensures intervalTimer == old(intervalTimer) && liveIntervals == old(liveIntervals)
    {
      requests := requests + [LogRequested(build)];
    }

    /** The log of a poll for `buildId` arrived; `messages` is its message array, null
        for a falsy log, which changes nothing. Otherwise the messages past the cursor
        are cut from the array and appended in order and the cursor moves past them; a
        completed build then stops the interval and resets the cursor, with no closing
        line, and a running one starts an interval for `buildId` when none is live. */
    method OnLogReceived(build: StreamedBuild, buildId: int, messages: JsArray.StringArray?)
      requires Valid() && channelCreated
      modifies this, messages
      ensures Valid() && channelCreated && requests == old(requests)
      ensures messages == null ==>
        output == old(output) && currentLogIndex == old(currentLogIndex) && intervalTimer == old(intervalTimer)
      ensures messages != null ==>
        var lines := LogStream.NewEntries(old(currentLogIndex), old(messages.elements));
        var completed := build.status == "completed";
        && messages.elements + lines == old(messages.elements)
        && output == old(output) + LogStream.Lines(lines)
        && currentLogIndex == (if completed then 0 else LogStream.Advance(old(currentLogIndex), old(messages.elements)))
        && intervalTimer == (if completed then None else if old(intervalTimer).None? then Some(buildId) else old(intervalTimer))
    {
      if messages == null {
        return;
      }
      var newLogEntries := messages.Splice(currentLogIndex);
      assert newLogEntries == LogStream.NewEntries(old(currentLogIndex), old(messages.elements));
      ghost var kept := messages.elements;
      for i := 0 to |newLogEntries|
        invariant output == old(output) + LogStream.Lines(newLogEntries[..i])
        invariant channelCreated && liveIntervals == old(liveIntervals) && intervalTimer == old(intervalTimer)
        invariant LogStream.CreatedOnceFirst(output) && |output| > 0
        invariant currentLogIndex == old(currentLogIndex) && requests == old(requests)
        invariant messages.elements == kept
      {
        LogStream.LinesSnoc(newLogEntries, i);
        LogStream.CreatedOnceFirstGrows(output, [LogStream.Line(newLogEntries[i])]);
        output := output + [LogStream.Line(newLogEntries[i])];
      }
      assert newLogEntries[..|newLogEntries|] == newLogEntries;
      currentLogIndex := currentLogIndex + |newLogEntries|;
      if build.status == "completed" {
        if intervalTimer.Some? {
          liveIntervals := liveIntervals - 1;
        }
        intervalTimer := None;
        currentLogIndex := 0;
      } else if intervalTimer.None? {
        intervalTimer := Some(buildId);
        liveIntervals := liveIntervals + 1;
      }
    }
  }

  /** A falsy log leaves a running stream exactly as it was. */
  method AbsentLogScenario(build: StreamedBuild, a: string)
    returns (before: seq<LogStream.OutputEvent>, after: seq<LogStream.OutputEvent>, cursor: nat, timer: Option<int>)
    requires build.status != "completed"
    ensures after == before && cursor == 1 && timer == Some(build.id)
  {
    var handler := new VstsBuildLogStreamHandler();
    handler.StreamLogs(build);
    handler.OnBuildReceived(build);
    var log := new JsArray.StringArray([a]);
    handler.OnLogReceived(build, build.id, log);
    assert LogStream.NewEntries(0, [a]) == [a];
    before := handler.output;
    handler.OnTimerFired();
    handler.OnBuildReceived(build);
    handler.OnLogReceived(build, build.id, null);
    after := handler.output;
    cursor := handler.currentLogIndex;
    timer := handler.intervalTimer;
  }
}
