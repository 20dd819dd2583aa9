/** The SocialDetailB handler: on every update of the character detail
    window it computes the character's level totals and writes the chosen
    one into the name label. */
module SocialDetailB {
  import opened Wrappers
  import Int32
  import opened LevelText
  import opened AtkPanel
  import opened Config
  import opened JobTables
  import opened LevelTotals
  import opened NameLabel

  /** The figure shown and its caption. */
  datatype Display = Display(level: int, levelLabel: string)

  /** The mode switch over (battle total, crafting total). */
  function DisplayFor(mode: LevelDisplayMode, totals: (int, int)): (d: Display)
    ensures d.levelLabel in Captions
    ensures d.level ==
      if d.levelLabel == "Combat" then totals.0
      else if d.levelLabel == "Crafting" then totals.1
      else Int32.Wrap(totals.0 + totals.1)
    ensures Int32.InRange(totals.0) && Int32.InRange(totals.1) ==> Int32.InRange(d.level)
  {
    match mode
    case CombatLevel => Display(totals.0, "Combat")
    case CraftingLevel => Display(totals.1, "Crafting")
    case _ => Display(Int32.Wrap(totals.0 + totals.1), "Total")
  }

  /** Each mode shows its own total under its own caption; the Total figure
      is the `int` sum of the Combat and Crafting figures. */
  lemma DisplayByMode(totals: (int, int))
    ensures DisplayFor(CombatLevel, totals) == Display(totals.0, "Combat")
    ensures DisplayFor(CraftingLevel, totals) == Display(totals.1, "Crafting")
    ensures DisplayFor(TotalLevel, totals) ==
      Display(Int32.Wrap(DisplayFor(CombatLevel, totals).level + DisplayFor(CraftingLevel, totals).level), "Total")
    ensures forall m1, m2 :: DisplayFor(m1, totals).levelLabel == DisplayFor(m2, totals).levelLabel ==> m1 == m2
  {
  }

  /** The new name label one window update writes, or None when it leaves
      the label as it is: the handler is disabled, the window is not loaded,
      the computation throws, the figure is not positive, the name node is
      missing or not a text node, the label already shows the figure, or the
      splice throws. */
  function Update(enabled: bool, loaded: bool, mode: LevelDisplayMode, panel: Panel): (r: Option<string>)
    ensures !enabled || !loaded ==> r.None?
    ensures r.Some? <==>
      && enabled && loaded
      && TotalLevels(panel).Some?
      && DisplayFor(mode, TotalLevels(panel).value).level > 0
      && LabelText(panel, NameNodeId).Some?
      && (var d := DisplayFor(mode, TotalLevels(panel).value);
          var name := LabelText(panel, NameNodeId).value;
          && !Contains(name, Marker(d.levelLabel, d.level))
          && !(|name| > 0 && name[0] == '('))
    ensures r.Some? ==>
      var d := DisplayFor(mode, TotalLevels(panel).value);
      Splice(panel[NameNodeId].text, d.levelLabel, d.level) == r
  {
    if !enabled || !loaded then None
    else match TotalLevels(panel)
      case None => None
      case Some(totals) =>
        var d := DisplayFor(mode, totals);
        if d.level <= 0 then None
        else match LabelText(panel, NameNodeId)
          case None => None
          case Some(name) =>
            if Contains(name, Marker(d.levelLabel, d.level)) then None
            else Splice(name, d.levelLabel, d.level)
  }

  /** The window after an update: the name node rewritten, or as it was. */
  function Applied(panel: Panel, r: Option<string>): Panel {
    match r
    case None => panel
    case Some(text) => panel[NameNodeId := TextNode(text)]
  }

  /** An update on a window it has just rewritten writes nothing: the totals
      do not read the name node, and the name now shows the figure. */
  lemma UpdateIdempotent(enabled: bool, loaded: bool, mode: LevelDisplayMode, panel: Panel)
    ensures Update(enabled, loaded, mode, Applied(panel, Update(enabled, loaded, mode, panel))).None?
  {
    var r := Update(enabled, loaded, mode, panel);
    if r.Some? {
      var p2 := Applied(panel, r);
      NodeIdsDisjoint();
      TotalLevelsFrame(panel, p2);
    }
  }

  /** An update of a label that an earlier update wrote replaces the
      earlier suffix instead of stacking a second one: the result is the
      original name with the new suffix. */
  lemma UpdateReplacesSuffix(mode: LevelDisplayMode, panel: Panel, name: string, earlierLabel: string, earlierLevel: nat)
    requires Splice(name, earlierLabel, earlierLevel).Some?
    requires LabelText(panel, NameNodeId) == Splice(name, earlierLabel, earlierLevel)
    ensures Update(true, true, mode, panel).Some? ==>
      var d := DisplayFor(mode, TotalLevels(panel).value);
      Update(true, true, mode, panel) == Splice(name, d.levelLabel, d.level)
  {
    if Update(true, true, mode, panel).Some? {
      var d := DisplayFor(mode, TotalLevels(panel).value);
      SpliceReplacesSuffix(name, earlierLabel, earlierLevel, d.levelLabel, d.level);
    }
  }

  /** The three captions. */
  const Captions: set<string> := {"Combat", "Crafting", "Total"}

  /** No caption holds a parenthesis. */
  lemma CaptionsWithoutParens(levelLabel: string)
    requires levelLabel in Captions
    ensures '(' !in levelLabel && ')' !in levelLabel
  {
    forall j | 0 <= j < |levelLabel| ensures levelLabel[j] != '(' && levelLabel[j] != ')' {
      assert 'A' <= levelLabel[j] <= 'z';
    }
  }

  /** A marker with one of the three captions names its caption and figure:
      two such markers are equal only for the same caption and figure. */
  lemma MarkerInjective(levelLabel1: string, level1: nat, levelLabel2: string, level2: nat)
    requires levelLabel1 in Captions && levelLabel2 in Captions
    ensures Marker(levelLabel1, level1) == Marker(levelLabel2, level2) ==>
      levelLabel1 == levelLabel2 && level1 == level2
  {
    var m1, m2 := Marker(levelLabel1, level1), Marker(levelLabel2, level2);
    if m1 == m2 {
      assert levelLabel1[0] == m1[1..|levelLabel1| + 1][0] == m1[1];
      assert levelLabel1[1] == m1[1..|levelLabel1| + 1][1] == m1[2];
      assert levelLabel2[0] == m2[1..|levelLabel2| + 1][0] == m2[1];
      assert levelLabel2[1] == m2[1..|levelLabel2| + 1][1] == m2[2];
      assert levelLabel1 == levelLabel2;
    }
  }

  /** A label that an earlier update wrote with another caption or another
      figure is rewritten: the next update gives the original name with the
      current suffix. */
  lemma UpdateRefreshesStaleLabel(mode: LevelDisplayMode, panel: Panel, name: string, earlierLabel: string, earlierLevel: nat)
    requires Splice(name, earlierLabel, earlierLevel).Some?
    requires LabelText(panel, NameNodeId) == Splice(name, earlierLabel, earlierLevel)
    requires earlierLabel in Captions
    requires TotalLevels(panel).Some?
    requires DisplayFor(mode, TotalLevels(panel).value).level > 0
    requires DisplayFor(mode, TotalLevels(panel).value) != Display(earlierLevel, earlierLabel)
    ensures Update(true, true, mode, panel) ==
      Splice(name, DisplayFor(mode, TotalLevels(panel).value).levelLabel, DisplayFor(mode, TotalLevels(panel).value).level)
  {
    var d := DisplayFor(mode, TotalLevels(panel).value);
    var t := Splice(name, earlierLabel, earlierLevel).value;
    assert !Contains(t, Marker(d.levelLabel, d.level)) by {
      CaptionsWithoutParens(earlierLabel);
      SplicedMarkerOnly(name, earlierLabel, earlierLevel, d.levelLabel, d.level);
      MarkerInjective(earlierLabel, earlierLevel, d.levelLabel, d.level);
    }
    assert !(|t| > 0 && t[0] == '(') by {
      BaseNameOfSpliced(BaseName(name).value, earlierLabel, earlierLevel);
      assert Splice(t, d.levelLabel, d.level).Some?;
    }
    assert Update(true, true, mode, panel) == Splice(t, d.levelLabel, d.level);
    SpliceReplacesSuffix(name, earlierLabel, earlierLevel, d.levelLabel, d.level);
  }

  /** A window in which no job, class or crafting label reads as a level is
      never relabelled, whatever the name label shows. */
  lemma NoLevelsNoUpdate(enabled: bool, loaded: bool, mode: LevelDisplayMode, panel: Panel)
    requires forall id :: id in ReadIds() && id in panel && panel[id].TextNode? ==> LevelOf(panel[id].text).None?
    ensures Update(enabled, loaded, mode, panel).None?
  {
    NoLevelsNoTotals(panel);
  }

  class SocialDetailBHandler {
    const configuration: Configuration

    constructor (configuration: Configuration)
      ensures this.configuration == configuration
    {
      this.configuration := configuration;
    }

    /** The PostUpdate listener: does nothing while the plugin is disabled. */
    method OnSocialDetailBUpdate(addon: Addon?)
      modifies addon
      ensures addon != null ==> addon.fullyLoaded == old(addon.fullyLoaded)
      ensures addon != null ==> addon.nodes == Applied(old(addon.nodes),
        Update(configuration.MasterEnable, old(addon.fullyLoaded), configuration.DisplayMode, old(addon.nodes)))
      ensures addon != null && !configuration.MasterEnable ==> addon.nodes == old(addon.nodes)
    {
      if !configuration.MasterEnable {
        return;
      }
      UpdateSocialDetailB(addon);
    }

    /** One relabelling of the window; a thrown exception is swallowed and
      leaves the window as it was. */
    method UpdateSocialDetailB(addon: Addon?)
      modifies addon
      ensures addon != null ==> addon.fullyLoaded == old(addon.fullyLoaded)
      ensures addon != null ==> addon.nodes == Applied(old(addon.nodes),
        Update(true, old(addon.fullyLoaded), configuration.DisplayMode, old(addon.nodes)))
    {
      if addon == null || !addon.fullyLoaded {
        return;
      }
      var totals := CalculateTotalLevelsFromAddon(addon);
      if totals.None? {
        return;
      }
      var d := DisplayFor(configuration.DisplayMode, totals.value);
      if d.level <= 0 {
        return;
      }
      if NameNodeId !in addon.nodes || !addon.nodes[NameNodeId].TextNode? {
        return;
      }
      var originalName := addon.nodes[NameNodeId].text;
      if Contains(originalName, Marker(d.levelLabel, d.level)) {
        return;
      }
      var newText := Splice(originalName, d.levelLabel, d.level);
      if newText.None? {
        return;
      }
      addon.SetText(NameNodeId, newText.value);
    }

    /** One pass of the battle loop: the level the job adds, None when its
        node or its text node is missing, when its fallback class node or
        text node is missing, or when the label does not parse. */
    method ReadJobLevel(addon: Addon, entry: (string, nat)) returns (level: Option<int>)
      ensures level == EntryLevel(addon.nodes, entry, true)
    {
      var acronym, nodeId := entry.0, entry.1;
      if nodeId !in addon.nodes || !addon.nodes[nodeId].TextNode? {
        return None;
      }
      var text := addon.nodes[nodeId].text;
      var classNode := FallbackClassNode(acronym);
      if '-' in text && classNode.Some? {
        var classNodeId := classNode.value;
        if classNodeId !in addon.nodes || !addon.nodes[classNodeId].TextNode? {
          return None;
        }
        text := addon.nodes[classNodeId].text;
      }
      level := TryParseInt(FirstToken(text));
    }

    /** One pass of the crafting loop, once the node is known to exist: the
        level the class adds, None when its text node is missing or the label
        does not parse. */
    method ReadCraftingLevel(addon: Addon, entry: (string, nat)) returns (level: Option<int>)
      requires entry.1 in addon.nodes
      ensures level == EntryLevel(addon.nodes, entry, false)
    {
      var nodeId := entry.1;
      if !addon.nodes[nodeId].TextNode? {
        return None;
      }
      level := TryParseInt(FirstToken(addon.nodes[nodeId].text));
    }

    /** The first `foreach` of `CalculateTotalLevelsFromAddon`: the battle
        total over a job table. */
    method SumBattleLevels(addon: Addon, jobs: seq<(string, nat)>) returns (battleTotal: int)
      ensures battleTotal == Total(addon.nodes, jobs, true)
    {
      battleTotal := 0;
      ghost var levels := Levels(addon.nodes, jobs, true);
      for i := 0 to |jobs|
        invariant battleTotal == WrapSum(levels[..i])
      {
        WrapSumStep(levels, i);
        var level := ReadJobLevel(addon, jobs[i]);
        if level.Some? {
          battleTotal := Int32.Wrap(battleTotal + level.value);
        }
      }
      assert levels[..|jobs|] == levels;
    }

    /** The second `foreach`: the crafting total over a class table, or None
        when one of its nodes is missing and dereferencing it throws. */
    method SumCraftingLevels(addon: Addon, classes: seq<(string, nat)>) returns (craftingTotal: Option<int>)
      ensures craftingTotal.None? <==> !NodesPresent(addon.nodes, classes)
      ensures craftingTotal.Some? ==> craftingTotal.value == Total(addon.nodes, classes, false)
    {
      var total := 0;
      ghost var levels := Levels(addon.nodes, classes, false);
      for i := 0 to |classes|
        invariant forall k :: 0 <= k < i ==> classes[k].1 in addon.nodes
        invariant total == WrapSum(levels[..i])
      {
        WrapSumStep(levels, i);
        if classes[i].1 !in addon.nodes {
          return None;
        }
        var level := ReadCraftingLevel(addon, classes[i]);
        if level.Some? {
          total := Int32.Wrap(total + level.value);
        }
      }
      assert levels[..|classes|] == levels;
      return Some(total);
    }

    /** The two totals read off the window, or None when the computation
        throws. */
    method CalculateTotalLevelsFromAddon(addon: Addon) returns (r: Option<(int, int)>)
      ensures r == TotalLevels(addon.nodes)
    {
      var battleTotal := SumBattleLevels(addon, JobNodeIds);
      var craftingTotal := SumCraftingLevels(addon, DohNodeIds);
      if craftingTotal.None? {
        return None;
      }
      r := Some((battleTotal, craftingTotal.value));
    }
  }
}
