/**
 * The attribute filter of mead/inspect.py: which attribute and method
 * names an Inspect wrapper shows, as set by the shared InspectConfig.
 */
module Inspection {

  /** The four settings of an InspectConfig at one moment. */
  datatype Settings = Settings(showAttrs: set<string>, hideAttrs: set<string>, showAll: bool, hideAll: bool)

  /**
   * `Inspect._should_show(name)`. With show_all every name is shown
   * unless hidden; otherwise with hide_all only the names asked for are
   * shown; otherwise a hidden name is not shown, and any other is.
   */
  function ShouldShow(c: Settings, name: string): (r: bool)
    ensures c.showAll ==> (r <==> name !in c.hideAttrs)
    ensures !c.showAll && c.hideAll ==> (r <==> name in c.showAttrs)
    ensures !c.showAll && !c.hideAll ==> (r <==> name !in c.hideAttrs)
  {
    if c.showAll then name !in c.hideAttrs
    else if c.hideAll then name in c.showAttrs
    else if name in c.hideAttrs then false
    else if name in c.showAttrs then true
    else true
  }

  /** Without either flag, hiding wins over showing, and a name mentioned nowhere is shown. */
  lemma HidingWins(c: Settings, name: string)
    requires !c.showAll && !c.hideAll
    ensures name in c.hideAttrs && name in c.showAttrs ==> !ShouldShow(c, name)
    ensures name !in c.hideAttrs && name !in c.showAttrs ==> ShouldShow(c, name)
  {
  }

  /** The names of a call's arguments, as a set. */
  function Names(names: seq<string>): (r: set<string>)
    ensures forall n :: n in r <==> n in names
  {
    set n | n in names
  }

  class InspectConfig {
    var showAttrs: set<string>
    var hideAttrs: set<string>
    var showAll: bool
    var hideAll: bool

    /** `InspectConfig()`: both sets empty and both flags off. */
    constructor()
      ensures Current() == Settings({}, {}, false, false)
    {
      showAttrs := {};
      hideAttrs := {};
      showAll := false;
      hideAll := false;
    }

    function Current(): Settings
      reads this
    {
      Settings(showAttrs, hideAttrs, showAll, hideAll)
    }

    /** `config.__init__()` on the existing config: back to the fresh settings. */
    method Reset()
      modifies this
      ensures Current() == Settings({}, {}, false, false)
    {
      showAttrs := {};
      hideAttrs := {};
      showAll := false;
      hideAll := false;
    }

    /** `show(*names)`: the names join the shown set; nothing else changes. */
    method Show(names: seq<string>)
      modifies this
      ensures Current() == old(Current()).(showAttrs := old(showAttrs) + Names(names))
    {
      showAttrs := showAttrs + Names(names);
    }

    /** `hide(*names)`: the names join the hidden set; nothing else changes. */
    method Hide(names: seq<string>)
      modifies this
      ensures Current() == old(Current()).(hideAttrs := old(hideAttrs) + Names(names))
    {
      hideAttrs := hideAttrs + Names(names);
    }
  }

  /** Showing or hiding the same names twice is the same as once. */
  lemma AddingTwice(s: set<string>, names: seq<string>)
    ensures s + Names(names) + Names(names) == s + Names(names)
  {
  }

  /**
   * The settings of the repository's inspect examples: after a reset with
   * hide_all set, only the names shown are shown; after hiding
   * "initial_value", everything else still is.
   */
  method ConfigExamples() returns (shown: Settings, hidden: Settings)
    ensures ShouldShow(shown, "compute") && ShouldShow(shown, "initial_value") && !ShouldShow(shown, "name")
    ensures !ShouldShow(hidden, "initial_value") && ShouldShow(hidden, "name")
  {
    var config := new InspectConfig();
    config.hideAll := true;
    config.Show(["compute", "initial_value"]);
    shown := config.Current();
    config.Reset();
    config.Hide(["initial_value"]);
    hidden := config.Current();
  }
}
