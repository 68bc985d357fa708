/** `BuildQuickPicker` of src/components/BuildQuickPicker.ts: the two pickers the
    commands open. Each is the chain the source builds: a REST request, the pick items
    made from its answer, and the user's choice among them (`None` when the pick is
    dismissed, which the source turns into `null`). */
module BuildQuickPicker {
  import opened Wrappers
  import Text
  import RestClient
  import Settings

  type Build = RestClient.Build
  type BuildDefinition = RestClient.BuildDefinition

  const GroupDescription := "Grouped Build Definition"
  const BuildPickTake := 10

  datatype DefinitionPickItem = DefinitionPickItem(ids: seq<int>, caption: string, description: string,
                                                   definitions: seq<BuildDefinition>)

  datatype BuildPickItem = BuildPickItem(id: int, caption: string, description: Option<string>, build: Build)

  function DefinitionItem(d: BuildDefinition): DefinitionPickItem {
    DefinitionPickItem([d.id], d.name, "Revision " + Text.IntToDecimal(d.revision), [d])
  }

  /** The label of the group item: its name when that is truthy, otherwise its ids
      joined with ','. */
  function GroupLabel(groupName: Option<string>, group: seq<BuildDefinition>): (r: string)
    ensures Text.IsTruthy(groupName) ==> r == groupName.value
    ensures !Text.IsTruthy(groupName) ==> r == RestClient.JoinIds(RestClient.DefinitionIds(group))
  {
    if Text.IsTruthy(groupName) then groupName.value else RestClient.JoinIds(RestClient.DefinitionIds(group))
  }

  /** `mapBuildDefinitionsToPickItems`: one item per definition, in order, then the
      group item when a group is set (an empty group is a truthy array too). */
  function DefinitionPickItems(definitions: seq<BuildDefinition>, settings: Settings.SettingsView): (r: seq<DefinitionPickItem>)
    ensures |r| == |definitions| + (if settings.definitionsGroup.Some? then 1 else 0)
    ensures forall i :: 0 <= i < |definitions| ==> r[i] == DefinitionItem(definitions[i])
    ensures settings.definitionsGroup.Some? ==>
      var group := settings.definitionsGroup.value;
      r[|definitions|] == DefinitionPickItem(RestClient.DefinitionIds(group),
                                             GroupLabel(settings.definitionsGroupName, group), GroupDescription, group)
  {
    var items := seq(|definitions|, i requires 0 <= i < |definitions| => DefinitionItem(definitions[i]));
    match settings.definitionsGroup
    case None => items
    case Some(group) =>
      items + [DefinitionPickItem(RestClient.DefinitionIds(group), GroupLabel(settings.definitionsGroupName, group),
                                  GroupDescription, group)]
  }

  /** Without a name, the group's label reads back as the group's ids. */
  lemma GroupLabelNamesIds(groupName: Option<string>, group: seq<BuildDefinition>)
    requires !Text.IsTruthy(groupName) && |group| > 0
    ensures var parts := Text.Split(GroupLabel(groupName, group), ',');
      |parts| == |group| && forall i :: 0 <= i < |group| ==> Text.ParseInt(parts[i]) == Some(group[i].id)
  {
    RestClient.JoinIdsRoundTrip(RestClient.DefinitionIds(group));
  }

  /** Every item carries as many ids as definitions, the ids of those definitions. */
  lemma PickItemsCarryOwnIds(definitions: seq<BuildDefinition>, settings: Settings.SettingsView)
    ensures var items := DefinitionPickItems(definitions, settings);
      forall k :: 0 <= k < |items| ==> items[k].ids == RestClient.DefinitionIds(items[k].definitions)
  {
    var items := DefinitionPickItems(definitions, settings);
    forall k | 0 <= k < |definitions| ensures items[k].ids == RestClient.DefinitionIds(items[k].definitions) {
      assert RestClient.DefinitionIds([definitions[k]]) == [definitions[k].id];
    }
  }

  /** A choice is an index into the items shown, or `None` for a dismissed pick. */
  predicate ChoiceFits<T>(choice: Option<nat>, items: seq<T>) {
    choice.Some? ==> choice.value < |items|
  }

  /** `showBuildDefinitionQuickPick`: a rejected request passes its reason on; a
      response without a list fails in `map` (a `TypeError`); otherwise the chosen
      item's definitions, and `None` when the pick is dismissed. */
  function ShowBuildDefinitionQuickPick(response: RestClient.Outcome<Option<seq<BuildDefinition>>>,
                                        settings: Settings.SettingsView, choice: Option<nat>)
    : (r: Settled<Option<seq<BuildDefinition>>, RestClient.Rejection>)
    requires response.Resolved? && response.value.value.Some? ==>
      ChoiceFits(choice, DefinitionPickItems(response.value.value.value, settings))
    ensures response.Rejected? ==> r == Rejected(response.reason)
    ensures response.Resolved? && response.value.value.None? ==> r.Rejected? && r.reason.Fault?
    ensures response.Resolved? && response.value.value.Some? ==>
      var defs := response.value.value.value;
      && r.Resolved?
      && (choice.None? ==> r.value.None?)
      && (choice.Some? && choice.value < |defs| ==> r.value == Some([defs[choice.value]]))
      && (choice.Some? && choice.value == |defs| ==> r.value == settings.definitionsGroup)
  {
    match response
    case Rejected(e) => Rejected(e)
    case Resolved(HttpResponse(_, value)) =>
      if value.None? then Rejected(RestClient.Fault("TypeError: Cannot read property 'map' of undefined"))
      else
        var items := DefinitionPickItems(value.value, settings);
        if choice.None? then Resolved(None) else Resolved(Some(items[choice.value].definitions))
  }

  /** The query the build picker sends: the builds of that one definition, ten of them,
      not batched to one per definition. */
  function BuildPickQuery(settings: RestClient.ClientSettings, buildDefinitionId: int): (url: string)
    ensures !Text.EndsWith(url, RestClient.BatchSuffix)
    ensures var head := RestClient.ApiBase(settings) + "builds?definitions=" + RestClient.JoinIds([buildDefinitionId]) + "&$top=";
      && |head| + |"&api-version=2.0"| <= |url| && url[..|head|] == head
      && Text.ParseInt(url[|head|..|url| - |"&api-version=2.0"|]) == Some(10)
  {
    RestClient.BuildsUrlBatching(settings, [buildDefinitionId], Some(BuildPickTake));
    RestClient.BuildsUrlTake(settings, [buildDefinitionId], Some(BuildPickTake));
    RestClient.BuildsUrl(settings, [buildDefinitionId], Some(BuildPickTake))
  }

  /** `mapBuildsToPickItems`: one item per build, in order, labelled with the build's
      queue time as the locale prints it (`localeLabel`, which the model does not
      define) and described by its result. */
  function BuildPickItems(builds: seq<Build>, localeLabel: string -> string): (r: seq<BuildPickItem>)
    ensures |r| == |builds|
    ensures forall i :: 0 <= i < |builds| ==>
      r[i] == BuildPickItem(builds[i].id, localeLabel(builds[i].queueTime), builds[i].result, builds[i])
  {
    seq(|builds|, i requires 0 <= i < |builds| => BuildPickItem(builds[i].id, localeLabel(builds[i].queueTime), builds[i].result, builds[i]))
  }

  /** `showBuildQuickPick`: a rejected request passes its reason on; otherwise the
      chosen build, and `None` when the pick is dismissed. */
  function ShowBuildQuickPick(response: RestClient.Outcome<seq<Build>>, localeLabel: string -> string, choice: Option<nat>)
    : (r: Settled<Option<Build>, RestClient.Rejection>)
    requires response.Resolved? ==> ChoiceFits(choice, response.value.value)
    ensures response.Rejected? ==> r == Rejected(response.reason)
    ensures response.Resolved? && choice.None? ==> r == Resolved(None)
    ensures response.Resolved? && choice.Some? ==> r == Resolved(Some(response.value.value[choice.value]))
  {
    match response
    case Rejected(e) => Rejected(e)
    case Resolved(HttpResponse(_, builds)) =>
      var items := BuildPickItems(builds, localeLabel);
      if choice.None? then Resolved(None) else Resolved(Some(items[choice.value].build))
  }
}
