/** The three commands of src/commands/: queue a build, open a build's log, open a
    build in the browser. Each is a promise chain over pickers and REST calls; the
    model is a function from what each step settled to (the pickers' answers, the
    queue request's outcome) to the actions the command takes, in order. A step that
    the chain never reaches is ignored. */
module Commands {
  import opened Wrappers
  import RestClient

  type Build = RestClient.Build
  type BuildDefinition = RestClient.BuildDefinition

  /** What a definition pick settles to: the chosen definitions, `None` when dismissed. */
  type DefinitionPick = Settled<Option<seq<BuildDefinition>>, RestClient.Rejection>
  /** What a build pick settles to: the chosen build, `None` when dismissed. */
  type BuildPick = Settled<Option<Build>, RestClient.Rejection>

  datatype Action =
    | ShowInformation(message: string)
    | PromptBranch
    | PickBuild(definitionId: int)
    | QueueBuild(definitionId: int, sourceBranch: string)
    | ViewLog(buildId: int)
    | OpenUrl(url: string)

  const QueueGroupMessage := "Queueing group build is not possible, please queue single builds one-by-one instead."
  const ViewGroupMessage := "Viewing group build is not possible, please select single build instead."
  const OpenGroupMessage := "Group build definition cannot be opened, please select single one instead."

  function QueuedMessage(definitionName: string): string {
    "Build has been queued for " + definitionName
  }

  /** The single definition a pick yields, if it yields exactly one. */
  predicate IsSinglePick(pick: DefinitionPick) {
    pick.Resolved? && pick.value.Some? && |pick.value.value| == 1
  }

  // ---------------------------------------------------------------------------
  // QueueBuildCommand.execute

  /** The branch prompt follows a definition pick that resolved, even a dismissed one.
      A dismissed pick, a group, a dismissed prompt (`None`; an empty branch still
      queues) or an empty list (whose `[0].id` throws) ends the command quietly, the
      group with an information message; otherwise the first definition is queued on
      that branch, and a queued build is announced by its definition's name. Every
      rejection is swallowed. */
  function QueueBuildCommand(pick: DefinitionPick, branch: Option<string>,
                             queued: RestClient.Outcome<RestClient.QueueBuildResult>): (actions: seq<Action>)
    ensures pick.Rejected? ==> actions == []
    ensures pick.Resolved? ==> |actions| > 0 && actions[0] == PromptBranch
    ensures pick.Resolved? && pick.value.Some? && |pick.value.value| > 1 ==> actions == [PromptBranch, ShowInformation(QueueGroupMessage)]
    ensures pick.Resolved? && (pick.value.None? || |pick.value.value| == 0 || (|pick.value.value| <= 1 && branch.None?)) ==>
      actions == [PromptBranch]
    ensures IsSinglePick(pick) && branch.Some? ==>
      actions == [PromptBranch, QueueBuild(pick.value.value[0].id, branch.value)]
                 + (if queued.Resolved? then [ShowInformation(QueuedMessage(queued.value.value.definition.name))] else [])
  {
    match pick
    case Rejected(_) => []
    case Resolved(selected) =>
      [PromptBranch] +
      if selected.None? then []
      else if |selected.value| > 1 then [ShowInformation(QueueGroupMessage)]
      else if branch.None? then []
      else if |selected.value| == 0 then []
      else
        [QueueBuild(selected.value[0].id, branch.value)]
        + (if queued.Resolved? then [ShowInformation(QueuedMessage(queued.value.value.definition.name))] else [])
  }

  /** A build is queued exactly when one definition was picked and a branch was given,
      and then it is that definition on that branch. */
  lemma QueueBuildOnlySingle(pick: DefinitionPick, branch: Option<string>,
                             queued: RestClient.Outcome<RestClient.QueueBuildResult>)
    ensures var actions := QueueBuildCommand(pick, branch, queued);
      (exists i :: 0 <= i < |actions| && actions[i].QueueBuild?) <==> IsSinglePick(pick) && branch.Some?
    ensures var actions := QueueBuildCommand(pick, branch, queued);
      forall i :: 0 <= i < |actions| && actions[i].QueueBuild? ==>
        actions[i] == QueueBuild(pick.value.value[0].id, branch.value)
  {
    var actions := QueueBuildCommand(pick, branch, queued);
    if IsSinglePick(pick) && branch.Some? {
      assert actions[1].QueueBuild?;
    }
  }

  // ---------------------------------------------------------------------------
  // OpenBuildLogCommand.execute

  /** A dismissed pick ends the command; a group shows an information message and
      ends it; one definition opens the build picker for its id, and a chosen build's
      log is viewed. A pick that rejects, or an empty list, ends it with nothing. */
  function OpenBuildLogCommand(pick: DefinitionPick, build: BuildPick): (actions: seq<Action>)
    ensures !(pick.Resolved? && pick.value.Some?) ==> actions == []
    ensures pick.Resolved? && pick.value.Some? && |pick.value.value| > 1 ==> actions == [ShowInformation(ViewGroupMessage)]
    ensures pick == Resolved(Some([])) ==> actions == []
    ensures IsSinglePick(pick) ==>
      actions == [PickBuild(pick.value.value[0].id)]
                 + (if build.Resolved? && build.value.Some? then [ViewLog(build.value.value.id)] else [])
  {
    if pick.Rejected? || pick.value.None? then []
    else if |pick.value.value| > 1 then [ShowInformation(ViewGroupMessage)]
    else if |pick.value.value| == 0 then []
    else
      [PickBuild(pick.value.value[0].id)] + (if build.Resolved? && build.value.Some? then [ViewLog(build.value.value.id)] else [])
  }

  /** A log is viewed exactly when one definition and then a build were picked. */
  lemma OpenBuildLogViewsOnlyChosen(pick: DefinitionPick, build: BuildPick)
    ensures var actions := OpenBuildLogCommand(pick, build);
      (exists i :: 0 <= i < |actions| && actions[i].ViewLog?) <==> IsSinglePick(pick) && build.Resolved? && build.value.Some?
  {
    var actions := OpenBuildLogCommand(pick, build);
    if IsSinglePick(pick) && build.Resolved? && build.value.Some? {
      assert actions[1].ViewLog?;
    }
  }

  // ---------------------------------------------------------------------------
  // OpenBuildInBrowserCommand.execute

  /** A dismissed pick ends the command. A group shows an information message but,
      unlike the other commands, the command goes on with the group's first
      definition; the build picker opens for that definition's id, and a chosen
      build's web page is opened. */
  function OpenBuildInBrowserCommand(pick: DefinitionPick, build: BuildPick): (actions: seq<Action>)
    ensures !(pick.Resolved? && pick.value.Some?) ==> actions == []
    ensures pick.Resolved? && pick.value.Some? && |pick.value.value| > 0 ==>
      var defs := pick.value.value;
      actions == (if |defs| > 1 then [ShowInformation(OpenGroupMessage)] else [])
                 + [PickBuild(defs[0].id)]
                 + (if build.Resolved? && build.value.Some? then [OpenUrl(build.value.value.webHref)] else [])
    ensures pick == Resolved(Some([])) ==> actions == []
  {
    if pick.Rejected? || pick.value.None? then []
    else
      var defs := pick.value.value;
      var notice := if |defs| > 1 then [ShowInformation(OpenGroupMessage)] else [];
      if |defs| == 0 then notice
      else notice + [PickBuild(defs[0].id)] + (if build.Resolved? && build.value.Some? then [OpenUrl(build.value.value.webHref)] else [])
  }

  /** A URL is opened exactly when some definition and then a build were picked, and
      it is that build's web link. */
  lemma OpenInBrowserOpensOnlyChosen(pick: DefinitionPick, build: BuildPick)
    ensures var actions := OpenBuildInBrowserCommand(pick, build);
      (exists i :: 0 <= i < |actions| && actions[i].OpenUrl?) <==>
        pick.Resolved? && pick.value.Some? && |pick.value.value| > 0 && build.Resolved? && build.value.Some?
    ensures var actions := OpenBuildInBrowserCommand(pick, build);
      forall i :: 0 <= i < |actions| && actions[i].OpenUrl? ==> actions[i] == OpenUrl(build.value.value.webHref)
  {
    var actions := OpenBuildInBrowserCommand(pick, build);
    if pick.Resolved? && pick.value.Some? && |pick.value.value| > 0 && build.Resolved? && build.value.Some? {
      assert actions[|actions| - 1].OpenUrl?;
    }
  }
}
