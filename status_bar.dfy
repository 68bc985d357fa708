/** `StatusBar` of src/components/StatusBar.ts: the status bar item of the newer
    revision, created on the first display and updated in place by every later one. */
module StatusBar {
  import opened Wrappers
  import Text

  /** The six `display*` methods. */
  datatype Kind = Success | Loading | Error | Information | NoBuilds | ConnectivityError

  /** The octicon each kind shows; information shows none. */
  function IconOf(kind: Kind): Option<string> {
    match kind
    case Success => Some("octicon-check")
    case Loading => Some("octicon-sync")
    case Error => Some("octicon-alert")
    case Information => None
    case NoBuilds => Some("octicon-clock")
    case ConnectivityError => Some("octicon-zap")
  }

  /** Only information goes without an icon, and no two kinds share one, so the icon
      tells the kind. */
  lemma IconTellsKind(a: Kind, b: Kind)
    ensures IconOf(a).None? <==> a == Information
    ensures IconOf(a).Some? ==> Text.IsTruthy(IconOf(a))
    ensures IconOf(a) == IconOf(b) ==> a == b
  {
  }

  const Prefix := "VSTS Build: "
  const SelectionCommand := "extension.openVstsBuildDefinitionSelection"

  /** The item's text: the prefix, the text, and the icon reference when there is one. */
  function ItemText(text: string, icon: Option<string>): string {
    if Text.IsTruthy(icon) then Prefix + text + " $(icon " + icon.value + ")" else Prefix + text
  }

  /** The text starts with the prefix and the caller's text, and ends in an icon
      reference exactly when an icon is given. */
  lemma ItemTextShape(text: string, icon: Option<string>)
    ensures var r := ItemText(text, icon);
      && |Prefix + text| <= |r| && r[..|Prefix + text|] == Prefix + text
      && (r == Prefix + text <==> !Text.IsTruthy(icon))
      && (Text.IsTruthy(icon) ==> r[|Prefix + text|..] == " $(icon " + icon.value + ")")
  {
    var r := ItemText(text, icon);
    if Text.IsTruthy(icon) {
      assert r == (Prefix + text) + (" $(icon " + icon.value + ")");
      assert |r| > |Prefix + text|;
    }
  }

  class StatusBar {
    /** Whether `statusBarItem` exists yet. */
    var itemCreated: bool
    var text: string
    /** The item's tooltip; a fresh item has none. */
    var tooltip: Option<string>
    var command: Option<string>
    var visible: bool

    /** Before the item exists nothing has been set or shown. */
    ghost predicate Valid()
      reads this
    {
      !itemCreated ==> text == "" && tooltip.None? && command.None? && !visible
    }

    constructor()
      ensures Valid() && !itemCreated && !visible
    {
      itemCreated := false;
      text := "";
      tooltip := None;
      command := None;
      visible := false;
    }

    /** `display<Kind>(text, tooltip)`, through `displayStatusBarItem`: the item is made on
        first use, gets the formatted text, keeps its old tooltip unless a non-empty one
        is given, always gets the definition-selection command, and is shown. */
    method Display(kind: Kind, text: string, tooltip: Option<string>)
      requires Valid()
      modifies this
      ensures Valid() && itemCreated && visible
      ensures this.text == ItemText(text, IconOf(kind))
      ensures this.tooltip == if Text.IsTruthy(tooltip) then tooltip else old(this.tooltip)
      ensures command == Some(SelectionCommand)
    {
      if !itemCreated {
        itemCreated := true;
      }
      var icon := IconOf(kind);
      if Text.IsTruthy(icon) {
        this.text := Prefix + text + " $(icon " + icon.value + ")";
      } else {
        this.text := Prefix + text;
      }
      if Text.IsTruthy(tooltip) {
        this.tooltip := tooltip;
      }
      command := Some(SelectionCommand);
      visible := true;
    }

    /** `hideStatusBarItem`: hides the item if there is one; before the first display it
        does nothing. */
    method HideStatusBarItem()
      requires Valid()
      modifies this
      ensures Valid() && itemCreated == old(itemCreated) && !visible
      ensures text == old(text) && tooltip == old(tooltip) && command == old(command)
    {
      if itemCreated {
        visible := false;
      }
    }
  }
}
