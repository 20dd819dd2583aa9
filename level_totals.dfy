/** The battle and crafting totals read off the window's job labels. */
module LevelTotals {
  import opened Wrappers
  import Int32
  import opened LevelText
  import opened AtkPanel
  import opened JobTables

  /** The level a label shows: its first token, parsed as an integer. */
  function LevelOf(text: string): (r: Option<int>)
    ensures r.Some? ==> IsIntegerText(FirstToken(text)) && Int32.InRange(r.value)
    ensures r.Some? && r.value < 0 ==> text[0] == '-'
  {
    TryParseInt(FirstToken(text))
  }

  /** The label one table entry settles on. With `fallback` (the battle
      table), a label containing '-' is replaced by the base class's label
      when the job has one; a missing node or a non-text label gives None. */
  function EntryText(panel: Panel, entry: (string, nat), fallback: bool): (r: Option<string>)
    ensures LabelText(panel, entry.1).None? ==> r.None?
    ensures !fallback ==> r == LabelText(panel, entry.1)
    ensures LabelText(panel, entry.1).Some? && !(fallback && '-' in panel[entry.1].text && FallbackClassNode(entry.0).Some?) ==>
      r == LabelText(panel, entry.1)
    ensures LabelText(panel, entry.1).Some? && fallback && '-' in panel[entry.1].text && FallbackClassNode(entry.0).Some? ==>
      r == LabelText(panel, FallbackClassNode(entry.0).value)
  {
    match LabelText(panel, entry.1)
    case None => None
    case Some(text) =>
      if fallback && '-' in text && FallbackClassNode(entry.0).Some?
      then LabelText(panel, FallbackClassNode(entry.0).value)
      else Some(text)
  }

  /** What one entry adds to its total, None when it adds nothing. */
  function EntryLevel(panel: Panel, entry: (string, nat), fallback: bool): (r: Option<int>)
    ensures r.Some? <==> EntryText(panel, entry, fallback).Some? && LevelOf(EntryText(panel, entry, fallback).value).Some?
    ensures r.Some? ==> Int32.InRange(r.value)
  {
    match EntryText(panel, entry, fallback)
    case None => None
    case Some(text) => LevelOf(text)
  }

  /** The levels the entries contribute, in table order. */
  function Levels(panel: Panel, entries: seq<(string, nat)>, fallback: bool): seq<Option<int>>
  {
    seq(|entries|, k requires 0 <= k < |entries| => EntryLevel(panel, entries[k], fallback))
  }

  /** The running `int` total of `levels`, in order, with C#'s wrap-around
      on every addition; an absent level adds nothing. */
  function WrapSum(levels: seq<Option<int>>): (r: int)
    ensures Int32.InRange(r)
  {
    if levels == [] then 0
    else
      var sum := WrapSum(levels[..|levels| - 1]);
      match levels[|levels| - 1]
      case None => sum
      case Some(level) => Int32.Wrap(sum + level)
  }

  /** The exact sum of the present levels, as if `int` were unbounded. */
  function Sum(levels: seq<Option<int>>): int {
    if levels == [] then 0
    else Sum(levels[..|levels| - 1]) + levels[|levels| - 1].GetOr(0)
  }

  /** The running total is the exact sum reduced to `int`: the wrap-around
      on each step loses nothing that a single wrap at the end would keep. */
  lemma {:induction false} WrapSumIsWrappedSum(levels: seq<Option<int>>)
    ensures WrapSum(levels) == Int32.Wrap(Sum(levels))
  {
    if levels != [] {
      var init := levels[..|levels| - 1];
      WrapSumIsWrappedSum(init);
      Int32.WrapAdd(Sum(init), levels[|levels| - 1].GetOr(0));
    }
  }

  /** With levels between 0 and `bound`, the exact sum stays between 0 and
      `bound` times the number of entries. */
  lemma {:induction false} SumBounds(levels: seq<Option<int>>, bound: nat)
    requires forall k :: 0 <= k < |levels| && levels[k].Some? ==> 0 <= levels[k].value <= bound
    ensures 0 <= Sum(levels) <= |levels| * bound
  {
    if levels != [] {
      var init := levels[..|levels| - 1];
      assert forall k :: 0 <= k < |init| ==> init[k] == levels[k];
      SumBounds(init, bound);
    }
  }

  /** When every level lies between 0 and `bound` and the table is small
      enough, the running total never wraps: it is the true sum. */
  lemma WrapSumWithoutOverflow(levels: seq<Option<int>>, bound: nat)
    requires forall k :: 0 <= k < |levels| && levels[k].Some? ==> 0 <= levels[k].value <= bound
    requires |levels| * bound <= Int32.Max
    ensures WrapSum(levels) == Sum(levels)
    ensures 0 <= WrapSum(levels) <= |levels| * bound
  {
    SumBounds(levels, bound);
    WrapSumIsWrappedSum(levels);
  }

  /** Levels that are each in `int` range can still wrap the total: the
      greatest `int` plus 1 gives the least. */
  lemma WrapSumCanWrap()
    ensures WrapSum([Some(Int32.Max), Some(1)]) == Int32.Min
  {
    assert [Some(Int32.Max), Some(1)][..1] == [Some(Int32.Max)];
    assert [Some(Int32.Max)][..0] == [];
    assert WrapSum([Some(Int32.Max)]) == Int32.Max;
    assert Int32.Max + 1 - Int32.Min == Int32.Modulus;
  }

  /** With no level present, the total is 0. */
  lemma {:induction false} WrapSumOfNothing(levels: seq<Option<int>>)
    requires forall k :: 0 <= k < |levels| ==> levels[k].None?
    ensures WrapSum(levels) == 0
  {
    if levels != [] {
      var init := levels[..|levels| - 1];
      assert forall k :: 0 <= k < |init| ==> init[k] == levels[k];
      WrapSumOfNothing(init);
    }
  }

  /** One more level adds that level, if present, to the running total. */
  lemma WrapSumStep(levels: seq<Option<int>>, i: nat)
    requires i < |levels|
    ensures WrapSum(levels[..i + 1]) ==
      if levels[i].None? then WrapSum(levels[..i]) else Int32.Wrap(WrapSum(levels[..i]) + levels[i].value)
  {
    assert levels[..i + 1][..i] == levels[..i];
  }

  /** The total of one table. */
  function Total(panel: Panel, entries: seq<(string, nat)>, fallback: bool): int {
    WrapSum(Levels(panel, entries, fallback))
  }

  /** Every crafting node of `entries` exists (a missing one is dereferenced
      and throws). */
  predicate NodesPresent(panel: Panel, entries: seq<(string, nat)>) {
    forall k :: 0 <= k < |entries| ==> entries[k].1 in panel
  }

  /** (battle total, crafting total), or None when the computation throws. */
  function TotalLevels(panel: Panel): (r: Option<(int, int)>)
    ensures r.None? <==> !NodesPresent(panel, DohNodeIds)
    ensures r.Some? ==> r.value.0 == Int32.Wrap(Sum(Levels(panel, JobNodeIds, true)))
    ensures r.Some? ==> r.value.1 == Int32.Wrap(Sum(Levels(panel, DohNodeIds, false)))
  {
    if NodesPresent(panel, DohNodeIds) then
      WrapSumIsWrappedSum(Levels(panel, JobNodeIds, true));
      WrapSumIsWrappedSum(Levels(panel, DohNodeIds, false));
      Some((Total(panel, JobNodeIds, true), Total(panel, DohNodeIds, false)))
    else None
  }

  /** The IDs of every node the totals may read. */
  function ReadIds(): set<nat> {
    EntryIds(JobNodeIds) + EntryIds(DohNodeIds) + ClassNodeIds.Values
  }

  /** Two panels with the same nodes at `ids`. */
  ghost predicate AgreeOn(p1: Panel, p2: Panel, ids: set<nat>) {
    forall id :: id in ids ==> (id in p1 <==> id in p2) && (id in p1 ==> p1[id] == p2[id])
  }

  /** An entry reads only its own node and, with fallback, its class node. */
  lemma EntryLevelFrame(p1: Panel, p2: Panel, entry: (string, nat), fallback: bool, ids: set<nat>)
    requires entry.1 in ids
    requires fallback && FallbackClassNode(entry.0).Some? ==> FallbackClassNode(entry.0).value in ids
    requires AgreeOn(p1, p2, ids)
    ensures EntryLevel(p1, entry, fallback) == EntryLevel(p2, entry, fallback)
  {
  }

  /** Only the eight jobs with a base class ever read another node: for
      every other battle job, on every window, the '-' fallback changes
      nothing. */
  lemma FallbackOnlyForEight(panel: Panel)
    ensures forall k :: 0 <= k < |JobNodeIds| && JobNodeIds[k].0 !in {"PLD", "WAR", "SCH", "MNK", "DRG", "NIN", "BRD", "BLM"} ==>
      EntryLevel(panel, JobNodeIds[k], true) == EntryLevel(panel, JobNodeIds[k], false)
  {
    FallbackJobSet();
  }

  /** The totals depend only on the table nodes: in particular not on the
      name node, so writing the name label leaves them unchanged. */
  lemma TotalLevelsFrame(p1: Panel, p2: Panel)
    requires AgreeOn(p1, p2, ReadIds())
    ensures TotalLevels(p1) == TotalLevels(p2)
  {
    forall k | 0 <= k < |JobNodeIds|
      ensures EntryLevel(p1, JobNodeIds[k], true) == EntryLevel(p2, JobNodeIds[k], true)
    {
      assert JobNodeIds[k].1 in EntryIds(JobNodeIds);
      EntryLevelFrame(p1, p2, JobNodeIds[k], true, ReadIds());
    }
    forall k | 0 <= k < |DohNodeIds|
      ensures EntryLevel(p1, DohNodeIds[k], false) == EntryLevel(p2, DohNodeIds[k], false)
    {
      assert DohNodeIds[k].1 in EntryIds(DohNodeIds);
      EntryLevelFrame(p1, p2, DohNodeIds[k], false, ReadIds());
    }
    assert Levels(p1, JobNodeIds, true) == Levels(p2, JobNodeIds, true);
    assert Levels(p1, DohNodeIds, false) == Levels(p2, DohNodeIds, false);
    forall k | 0 <= k < |DohNodeIds| ensures DohNodeIds[k].1 in ReadIds() {
      assert DohNodeIds[k].1 in EntryIds(DohNodeIds);
    }
  }

  /** A label whose first token is not an integer (such as "-" on a job with
      no base-class fallback) adds to neither total: it counts the same as a
      node that is not a text node. */
  lemma UnparsableLabelCountsAsNone(panel: Panel, id: nat, text: string)
    requires id in EntryIds(JobNodeIds) + EntryIds(DohNodeIds)
    requires LevelOf(text).None?
    requires forall k :: 0 <= k < |JobNodeIds| && JobNodeIds[k].1 == id && '-' in text ==>
      FallbackClassNode(JobNodeIds[k].0).None?
    ensures TotalLevels(panel[id := TextNode(text)]) == TotalLevels(panel[id := OtherNode])
  {
    var p1, p2 := panel[id := TextNode(text)], panel[id := OtherNode];
    NodeIdsDisjoint();
    forall k | 0 <= k < |JobNodeIds|
      ensures EntryLevel(p1, JobNodeIds[k], true) == EntryLevel(p2, JobNodeIds[k], true)
    {
      if JobNodeIds[k].1 != id {
        assert JobNodeIds[k].1 in EntryIds(JobNodeIds);
        EntryLevelFrame(p1, p2, JobNodeIds[k], true, (ReadIds() - {id}));
      }
    }
    forall k | 0 <= k < |DohNodeIds|
      ensures EntryLevel(p1, DohNodeIds[k], false) == EntryLevel(p2, DohNodeIds[k], false)
    {
      if DohNodeIds[k].1 != id {
        assert DohNodeIds[k].1 in EntryIds(DohNodeIds);
        EntryLevelFrame(p1, p2, DohNodeIds[k], false, (ReadIds() - {id}));
      }
    }
    assert Levels(p1, JobNodeIds, true) == Levels(p2, JobNodeIds, true);
    assert Levels(p1, DohNodeIds, false) == Levels(p2, DohNodeIds, false);
  }

  /** A window in which no job, class or crafting label reads as a level
      yields no positive total: either the computation throws or both totals
      are 0. The name label plays no part. */
  lemma NoLevelsNoTotals(panel: Panel)
    requires forall id :: id in ReadIds() && id in panel && panel[id].TextNode? ==> LevelOf(panel[id].text).None?
    ensures TotalLevels(panel) == None || TotalLevels(panel) == Some((0, 0))
  {
    forall k | 0 <= k < |JobNodeIds| ensures EntryLevel(panel, JobNodeIds[k], true).None? {
      assert JobNodeIds[k].1 in EntryIds(JobNodeIds);
    }
    forall k | 0 <= k < |DohNodeIds| ensures EntryLevel(panel, DohNodeIds[k], false).None? {
      assert DohNodeIds[k].1 in EntryIds(DohNodeIds);
    }
    WrapSumOfNothing(Levels(panel, JobNodeIds, true));
    WrapSumOfNothing(Levels(panel, DohNodeIds, false));
  }

  /** A label "30" reads as 30, and a label "-" as nothing. */
  lemma ExampleLabels()
    ensures LevelOf("30") == Some(30)
    ensures LevelOf("-") == None
  {
    assert NatToString(30) == "30" by {
      assert NatToString(3) == "3";
    }
    ReadLevelRoundTrip(30, "");
    assert NatToString(30) + "" == "30";
    FirstTokenOfWord("-", "");
    assert "-" + "" == "-";
    assert Unsigned("-") == [];
  }

  /** A job showing "-" counts its base class's level when the job has a
      fallback: PLD reads the Gladiator node. */
  lemma DashFallbackCounts()
    ensures EntryLevel(map[39 := TextNode("-"), 44 := TextNode("30")], ("PLD", 39), true) == Some(30)
  {
    ExampleLabels();
    FallbackJobs();
    var pld: Panel := map[39 := TextNode("-"), 44 := TextNode("30")];
    assert '-' in "-" && LabelText(pld, 39) == Some("-") && LabelText(pld, 44) == Some("30");
    assert EntryText(pld, ("PLD", 39), true) == Some("30");
  }

  /** A job showing "-" counts nothing when the misspelt table gives it no
      fallback: WHM ignores the Conjurer node, even when it shows a level. */
  lemma DashWithoutFallbackCountsNothing()
    ensures EntryLevel(map[48 := TextNode("-"), 53 := TextNode("30")], ("WHM", 48), true) == None
  {
    ExampleLabels();
    FallbackJobs();
    var whm: Panel := map[48 := TextNode("-"), 53 := TextNode("30")];
    assert LabelText(whm, 48) == Some("-");
    assert EntryText(whm, ("WHM", 48), true) == Some("-");
  }
}
