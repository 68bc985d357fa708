/** `VstsBuildStatusBar` of src/vstsbuildstatusbar.ts: the status bar item of the
    earlier revision. Unlike the newer one, every display names its command and
    always overwrites the tooltip. */
module LegacyStatusBar {
  import opened Wrappers
  import Text

  datatype Kind = Success | Loading | Error | Information | NoBuilds | ConnectivityError

  /** The octicon each kind passes; information passes the empty string. */
  function IconOf(kind: Kind): string {
    match kind
    case Success => "octicon-check"
    case Loading => "octicon-sync"
    case Error => "octicon-alert"
    case Information => ""
    case NoBuilds => "octicon-clock"
    case ConnectivityError => "octicon-zap"
  }

  const BuildSelectionCommand := "extension.openVstsBuildSelection"
  const DefinitionSelectionCommand := "extension.openVstsBuildDefinitionSelection"

  /** Information opens the build selection, every other kind the definition selection. */
  function CommandOf(kind: Kind): (r: string)
    ensures r == BuildSelectionCommand <==> kind == Information
    ensures r == DefinitionSelectionCommand <==> kind != Information
  {
    if kind == Information then BuildSelectionCommand else DefinitionSelectionCommand
  }

  const Prefix := "VSTS Build: "

  function ItemText(text: string, icon: string): string {
    if icon != "" then Prefix + text + " $(icon " + icon + ")" else Prefix + text
  }

  /** The icon reference follows the text exactly when the icon is not empty. */
  lemma ItemTextShape(text: string, icon: string)
    ensures var r := ItemText(text, icon);
      && |Prefix + text| <= |r| && r[..|Prefix + text|] == Prefix + text
      && (r == Prefix + text <==> icon == "")
      && (icon != "" ==> r[|Prefix + text|..] == " $(icon " + icon + ")")
  {
    var r := ItemText(text, icon);
    if icon != "" {
      assert r == (Prefix + text) + (" $(icon " + icon + ")");
      assert |r| > |Prefix + text|;
    }
  }

  /** Of the six kinds exactly information goes without an icon. */
  lemma InformationAlone(kind: Kind)
    ensures IconOf(kind) == "" <==> kind == Information
  {
  }

  class VstsBuildStatusBar {
    var itemCreated: bool
    var text: string
    var tooltip: Option<string>
    var command: Option<string>
    var visible: bool

    ghost predicate Valid()
      reads this
    {
      !itemCreated ==> text == "" && tooltip.None? && command.None? && !visible
    }

    constructor()
      ensures Valid() && !itemCreated && !visible
    {
      itemCreated := false;
      text := "";
      tooltip := None;
      command := None;
      visible := false;
    }

    /** `display<Kind>(text, tooltip)`, through `displayStatusBarItem`: the item is made on
        first use, and text, tooltip (even an empty one) and the kind's command are all
        set before it is shown. */
    method Display(kind: Kind, text: string, tooltip: string)
      requires Valid()
      modifies this
      ensures Valid() && itemCreated && visible
      ensures this.text == ItemText(text, IconOf(kind))
      ensures this.tooltip == Some(tooltip)
      ensures command == Some(CommandOf(kind))
    {
      if !itemCreated {
        itemCreated := true;
      }
      var icon := IconOf(kind);
      if icon != "" {
        this.text := Prefix + text + " $(icon " + icon + ")";
      } else {
        this.text := Prefix + text;
      }
      this.tooltip := Some(tooltip);
      command := Some(CommandOf(kind));
      visible := true;
    }

    /** `hideStatusBarItem`: a no-op before the first display. */
    method HideStatusBarItem()
      requires Valid()
      modifies this
      ensures Valid() && itemCreated == old(itemCreated) && !visible
      ensures text == old(text) && tooltip == old(tooltip) && command == old(command)
    {
      if itemCreated {
        visible := false;
      }
    }
  }
}
