/** `WorkspaceVstsSettings` of src/settings.ts: the account settings read from the
    `vsts` section of the workspace configuration, and the active build definition
    kept in the extension's state store across sessions. */
module Settings {
  import opened Wrappers
  import Text
  import LegacyRestClient
  import RestClient

  type Definition = LegacyRestClient.BuildDefinition

  const ActiveBuildDefinitionStateKey := "vsts.active.definition"

  /** The four strings of the `vsts` configuration section before trimming. */
  datatype Configuration = Configuration(account: string, username: string, password: string, project: string)

  /** The configuration as `reload` stores it: every field trimmed. */
  function Trimmed(config: Configuration): Configuration {
    Configuration(Text.Trim(config.account), Text.Trim(config.username), Text.Trim(config.password), Text.Trim(config.project))
  }

  /** The three checks of `isValid`: account, password and project must be non-empty;
      the user name is not checked. */
  predicate IsAccountProvided(account: string) { account != "" }
  predicate IsCredentialsProvided(password: string) { password != "" }
  predicate IsProjectSpecified(project: string) { project != "" }

  predicate IsValidSettings(account: string, password: string, project: string) {
    IsAccountProvided(account) && IsCredentialsProvided(password) && IsProjectSpecified(project)
  }

  /** The settings `reload` makes of a configuration: every field trimmed. Their validity
      depends on the trimmed strings only, so a field of nothing but whitespace counts
      as missing. */
  lemma ReloadedValidity(config: Configuration)
    ensures IsValidSettings(Text.Trim(config.account), Text.Trim(config.password), Text.Trim(config.project))
      <==> !Text.AllWhitespace(config.account) && !Text.AllWhitespace(config.password) && !Text.AllWhitespace(config.project)
  {
    Text.TrimSpec(config.account);
    Text.TrimSpec(config.password);
    Text.TrimSpec(config.project);
  }

  /** The extension's `Memento`: a key-value store that outlives a settings object. */
  class Memento {
    var entries: map<string, Option<Definition>>

    constructor(entries: map<string, Option<Definition>>)
      ensures this.entries == entries
    {
      this.entries := entries;
    }

    /** `state.get(key)`: the stored value, `undefined` for a key never stored. */
    function Get(key: string): Option<Definition>
      reads this
    {
      if key in entries then entries[key] else None
    }

    method Update(key: string, value: Option<Definition>)
      modifies this
      ensures entries == old(entries)[key := value]
      ensures Get(key) == value
    {
      entries := entries[key := value];
    }
  }

  /** What the registered configuration listener did, in order. */
  datatype SettingsEvent = Reloaded | HandlerCalled(handler: nat)

  class WorkspaceVstsSettings {
    var account: string
    var username: string
    var password: string
    var project: string
    var activeBuildDefinition: Option<Definition>
    const state: Memento
    /** The handler registered with `onDidChangeSettings`, by identity. */
    var handler: Option<nat>
    var events: seq<SettingsEvent>

    /** Restores the active definition from the state store when one is stored, registers
        the configuration listener, and loads the configuration. */
    constructor(state: Memento, config: Configuration)
      modifies state
      ensures this.state == state
      ensures activeBuildDefinition == old(state.Get(ActiveBuildDefinitionStateKey))
      ensures state.entries == old(state.entries)
      ensures Fields() == Trimmed(config)
      ensures handler.None? && events == []
    {
      this.state := state;
      var definition := state.Get(ActiveBuildDefinitionStateKey);
      activeBuildDefinition := None;
      if definition.Some? {
        activeBuildDefinition := definition;
        state.Update(ActiveBuildDefinitionStateKey, definition);
        assert state.entries == old(state.entries);
      }
      handler := None;
      events := [];
      var trimmed := Trimmed(config);
      account, username, password, project := trimmed.account, trimmed.username, trimmed.password, trimmed.project;
    }

    function Fields(): Configuration
      reads this
    {
      Configuration(account, username, password, project)
    }

    /** `isValid()`: account, password and project all present. */
    predicate IsValid()
      reads this
    {
      IsValidSettings(account, password, project)
    }

    /** `reload()`: each field becomes its configuration value trimmed. */
    method Reload(config: Configuration)
      modifies this
      ensures Fields() == Trimmed(config)
      ensures activeBuildDefinition == old(activeBuildDefinition) && handler == old(handler) && events == old(events)
    {
      var trimmed := Trimmed(config);
      account, username, password, project := trimmed.account, trimmed.username, trimmed.password, trimmed.project;
    }

    /** The `activeBuildDefinition` setter: remembers the definition and writes it to the
        state store under the active-definition key. */
    method SetActiveBuildDefinition(definition: Option<Definition>)
      modifies this, state
      ensures activeBuildDefinition == definition
      ensures state.entries == old(state.entries)[ActiveBuildDefinitionStateKey := definition]
      ensures Fields() == old(Fields())
      ensures handler == old(handler) && events == old(events)
    {
      activeBuildDefinition := definition;
      state.Update(ActiveBuildDefinitionStateKey, definition);
    }

    /** `onDidChangeSettings(handler)`: the new handler replaces any earlier one. */
    method OnDidChangeSettings(h: nat)
      modifies this
      ensures handler == Some(h)
      ensures Fields() == old(Fields())
      ensures activeBuildDefinition == old(activeBuildDefinition) && events == old(events)
    {
      handler := Some(h);
    }

    /** The configuration listener: reload first, then call the registered handler, if any. */
    method OnConfigurationChanged(config: Configuration)
      modifies this
      ensures Fields() == Trimmed(config)
      ensures events == old(events) + [Reloaded] + (if handler.Some? then [HandlerCalled(handler.value)] else [])
      ensures handler == old(handler) && activeBuildDefinition == old(activeBuildDefinition)
    {
      Reload(config);
      events := events + [Reloaded];
      if handler.Some? {
        events := events + [HandlerCalled(handler.value)];
      }
    }
  }

  /** A selection made through one settings object is what a later one, made over the
      same state store, starts with; its validity is decided by the trimmed fields. */
  method RestoreScenario(config: Configuration, definition: Definition) returns (restored: Option<Definition>, valid: bool)
    ensures restored == Some(definition)
    ensures valid <==> IsValidSettings(Text.Trim(config.account), Text.Trim(config.password), Text.Trim(config.project))
  {
    var state := new Memento(map[]);
    var first := new WorkspaceVstsSettings(state, config);
    first.SetActiveBuildDefinition(Some(definition));
    var second := new WorkspaceVstsSettings(state, config);
    restored := second.activeBuildDefinition;
    valid := second.IsValid();
  }

  /** Two registrations, then a configuration change: only the later handler runs, and
      after the reload. */
  method HandlerScenario(config: Configuration, changed: Configuration, first: nat, second: nat)
    returns (events: seq<SettingsEvent>, project: string)
    ensures events == [Reloaded, HandlerCalled(second)]
    ensures project == Text.Trim(changed.project)
  {
    var state := new Memento(map[]);
    var settings := new WorkspaceVstsSettings(state, config);
    settings.OnDidChangeSettings(first);
    settings.OnDidChangeSettings(second);
    settings.OnConfigurationChanged(changed);
    events := settings.events;
    project := settings.project;
  }

  /** The settings as the newer-revision consumers read them: the three validity fields
      and the user name, the active definitions (an empty list when none), and the
      optional group of definitions with its optional name. */
  datatype SettingsView = SettingsView(
    account: string,
    username: string,
    password: string,
    project: string,
    activeBuildDefinitions: seq<RestClient.BuildDefinition>,
    definitionsGroupName: Option<string>,
    definitionsGroup: Option<seq<RestClient.BuildDefinition>>)
  {
    predicate IsValid() {
      IsValidSettings(account, password, project)
    }

    function Client(): RestClient.ClientSettings {
      RestClient.ClientSettings(account, username, password, project)
    }
  }
}
