/** `BuildLogViewer` of src/components/BuildLogViewer.ts: streams one build's log into
    an output channel. `viewLog` opens the channel and starts a poll; a poll asks for
    the build and then its log, appends the messages past the cursor, and either ends
    the stream (the build completed) or keeps an interval running that polls again.
    The poll is split into its request step (`GetNext`), the arrival of the build
    (`OnBuildReceived`) and the arrival of both (`OnPollCompleted`). */
module BuildLogViewer {
  import opened Wrappers
  import RestClient
  import JsArray
  import LogStream

  const WaitingLine := "(VSTS Build Agent Status extension) Waiting for first logs..."
  const EndLine := "(VSTS Build Agent Status extension) End of build log"

  /** The requests a poll sends to the REST client, in order. */
  datatype Request = BuildRequested(buildId: int) | LogRequested(build: RestClient.Build)

  class BuildLogViewer {
    var channelCreated: bool
    var output: seq<LogStream.OutputEvent>
    /** The build id the live interval polls, when one is live. */
    var intervalTimer: Option<int>
    ghost var liveIntervals: nat
    var currentLogIndex: nat
    var requests: seq<Request>

    ghost predicate Valid()
      reads this
    {
      && liveIntervals == (if intervalTimer.Some? then 1 else 0)
      && (channelCreated <==> |output| > 0)
      && LogStream.CreatedOnceFirst(output)
    }

    constructor()
      ensures Valid() && !channelCreated && output == [] && intervalTimer.None?
      ensures currentLogIndex == 0 && requests == []
    {
      channelCreated := false;
      output := [];
      intervalTimer := None;
      liveIntervals := 0;
      currentLogIndex := 0;
      requests := [];
    }

    /** `viewLog`: creates the channel the first time only, clears and shows it, and
        polls; the cursor is left as it is. */
    method ViewLog(buildId: int)
      requires Valid()
      modifies this
      ensures Valid() && channelCreated
      ensures output == old(output)
        + (if old(channelCreated) then [] else [LogStream.ChannelCreated(LogStream.ChannelName)])
        + [LogStream.Cleared, LogStream.Shown]
        + (if old(currentLogIndex) == 0 then [LogStream.Line(WaitingLine)] else [])
      ensures requests == old(requests) + [BuildRequested(buildId)]
      ensures currentLogIndex == old(currentLogIndex) && intervalTimer == old(intervalTimer)
    {
      if !channelCreated {
        channelCreated := true;
        output := output + [LogStream.ChannelCreated(LogStream.ChannelName)];
      }
      LogStream.CreatedOnceFirstGrows(output, [LogStream.Cleared, LogStream.Shown]);
      output := output + [LogStream.Cleared, LogStream.Shown];
      GetNext(buildId);
    }

    /** The request step of `getNext`: the waiting line exactly when the cursor is at 0,
        then the build request. */
    method GetNext(buildId: int)
      requires Valid() && channelCreated
      modifies this
      ensures Valid() && channelCreated
      ensures output == old(output) + (if old(currentLogIndex) == 0 then [LogStream.Line(WaitingLine)] else [])
      ensures requests == old(requests) + [BuildRequested(buildId)]
      ensures currentLogIndex == old(currentLogIndex) && intervalTimer == old(intervalTimer)
      ensures liveIntervals == old(liveIntervals)
    {
      if currentLogIndex == 0 {
        LogStream.CreatedOnceFirstGrows(output, [LogStream.Line(WaitingLine)]);
        output := output + [LogStream.Line(WaitingLine)];
      }
      requests := requests + [BuildRequested(buildId)];
    }

    /** The live interval fires: a poll of the build it was started for. */
    method OnTimerFired()
      requires Valid() && channelCreated && intervalTimer.Some?
      modifies this
      ensures Valid() && channelCreated
      ensures output == old(output) + (if old(currentLogIndex) == 0 then [LogStream.Line(WaitingLine)] else [])
      ensures requests == old(requests) + [BuildRequested(old(intervalTimer).value)]
      ensures currentLogIndex == old(currentLogIndex) && intervalTimer == old(intervalTimer)
    {
      GetNext(intervalTimer.value);
    }

    /** The build request resolved: the log of that build is asked for. */
    method OnBuildReceived(build: RestClient.HttpResponse<RestClient.Build>)
      modifies this
      ensures requests == old(requests) + [LogRequested(build.value)]
      ensures output == old(output) && channelCreated == old(channelCreated) && currentLogIndex == old(currentLogIndex)
      ensures intervalTimer == old(intervalTimer) && liveIntervals == old(liveIntervals)
    {
      requests := requests + [LogRequested(build.value)];
    }

    /** Both requests of a poll for `buildId` resolved; `messages` is the log's message
        array, null for a falsy log, which ends the poll with nothing done. Otherwise the
        messages past the cursor are cut from the array and appended in order, and the
        cursor moves past them; a completed build then stops the interval, resets the
        cursor and appends the end line, and a running one starts an interval for
        `buildId` when none is live. */
    method OnPollCompleted(build: RestClient.HttpResponse<RestClient.Build>, buildId: int, messages: JsArray.StringArray?)
      requires Valid() && channelCreated
      modifies this, messages
      ensures Valid() && channelCreated && requests == old(requests)
      ensures messages == null ==>
        output == old(output) && currentLogIndex == old(currentLogIndex) && intervalTimer == old(intervalTimer)
      ensures messages != null ==>
        var lines := LogStream.NewEntries(old(currentLogIndex), old(messages.elements));
        var completed := build.value.status == "completed";
        && messages.elements + lines == old(messages.elements)
        && output == old(output) + LogStream.Lines(lines) + (if completed then [LogStream.Line(EndLine)] else [])
        && currentLogIndex == (if completed then 0 else LogStream.Advance(old(currentLogIndex), old(messages.elements)))
        && intervalTimer == (if completed then None else if old(intervalTimer).None? then Some(buildId) else old(intervalTimer))
    {
      if messages == null {
        return;
      }
      var newLogEntries := messages.Splice(currentLogIndex);
      assert newLogEntries == LogStream.NewEntries(old(currentLogIndex), old(messages.elements));
      ghost var kept := messages.elements;
      for i := 0 to |newLogEntries|
        invariant output == old(output) + LogStream.Lines(newLogEntries[..i])
        invariant channelCreated && liveIntervals == old(liveIntervals) && intervalTimer == old(intervalTimer)
        invariant LogStream.CreatedOnceFirst(output) && |output| > 0
        invariant currentLogIndex == old(currentLogIndex) && requests == old(requests)
        invariant messages.elements == kept
      {
        LogStream.LinesSnoc(newLogEntries, i);
        LogStream.CreatedOnceFirstGrows(output, [LogStream.Line(newLogEntries[i])]);
        output := output + [LogStream.Line(newLogEntries[i])];
      }
      assert newLogEntries[..|newLogEntries|] == newLogEntries;
      currentLogIndex := currentLogIndex + |newLogEntries|;
      if build.value.status == "completed" {
        if intervalTimer.Some? {
          liveIntervals := liveIntervals - 1;
        }
        intervalTimer := None;
        currentLogIndex := 0;
        LogStream.CreatedOnceFirstGrows(output, [LogStream.Line(EndLine)]);
        output := output + [LogStream.Line(EndLine)];
      } else if intervalTimer.None? {
        intervalTimer := Some(buildId);
        liveIntervals := liveIntervals + 1;
      }
    }
  }

  /** Viewing a running build whose log has two lines, then, on the next poll, three,
      then completes with four: each line shows once, framed by the waiting and end lines. */
  method GrowingLogScenario(running: RestClient.Build, done: RestClient.Build, a: string, b: string, c: string, d: string)
    returns (output: seq<LogStream.OutputEvent>, cursor: nat, timer: Option<int>)
    requires running.status != "completed" && done.status == "completed"
    ensures output == [LogStream.ChannelCreated(LogStream.ChannelName), LogStream.Cleared, LogStream.Shown,
                       LogStream.Line(WaitingLine), LogStream.Line(a), LogStream.Line(b), LogStream.Line(c),
                       LogStream.Line(d), LogStream.Line(EndLine)]
    ensures cursor == 0 && timer.None?
  {
    var viewer := new BuildLogViewer();
    viewer.ViewLog(7);
    var header := [LogStream.ChannelCreated(LogStream.ChannelName), LogStream.Cleared, LogStream.Shown, LogStream.Line(WaitingLine)];
    assert viewer.output == header;
    var first := new JsArray.StringArray([a, b]);
    viewer.OnPollCompleted(RestClient.HttpResponse(200, running), 7, first);
    assert LogStream.NewEntries(0, [a, b]) == [a, b];
    assert viewer.output == header + LogStream.Lines([a, b]);
    assert viewer.currentLogIndex == 2 && viewer.intervalTimer == Some(7);
    viewer.OnTimerFired();
    var second := new JsArray.StringArray([a, b, c]);
    viewer.OnPollCompleted(RestClient.HttpResponse(200, running), 7, second);
    assert LogStream.NewEntries(2, [a, b, c]) == [c];
    assert viewer.output == header + LogStream.Lines([a, b]) + LogStream.Lines([c]);
    assert viewer.currentLogIndex == 3 && viewer.intervalTimer == Some(7);
    viewer.OnTimerFired();
    var third := new JsArray.StringArray([a, b, c, d]);
    viewer.OnPollCompleted(RestClient.HttpResponse(200, done), 7, third);
    assert LogStream.NewEntries(3, [a, b, c, d]) == [d];
    assert viewer.output == header + LogStream.Lines([a, b]) + LogStream.Lines([c]) + LogStream.Lines([d]) + [LogStream.Line(EndLine)];
    output := viewer.output;
    cursor := viewer.currentLogIndex;
    timer := viewer.intervalTimer;
  }
}
