# TotalLevelPlugin: the SocialDetailB level label

TotalLevelPlugin is a plugin for a game client. Each time the character
detail window ("SocialDetailB") updates, `SocialDetailBHandler` does the
following:

- reads the level labels of the 22 battle jobs and the 11 crafting and
  gathering classes from the window's nodes;
- sums them into a battle total and a crafting total;
- rewrites the character-name label to end in
  `(<Combat|Crafting|Total> level-<n>)`, choosing the figure from the
  configured display mode.

This project is a Dafny model of that handler.

The window is an abstract panel: a map from node ID to a node that is
either a text node with its text or some other node. An ID that is not
in the map is a node `GetNodeById` does not find. `Update` is the
handler's whole effect as a value: the new name text, or `None` for
"left unchanged". The class `SocialDetailBHandler` runs the same steps
imperatively over an `Addon` object whose nodes it rewrites in place.
Its `ensures` ties the new state to `Update`.

Behaviour kept exactly as the code has it:

- **Misspelt table keys.** The job-to-class table has the keys "WMH" and
  "SUM", and the class-node table has the key "CJN". These match no real
  acronym (the real ones are WHM, SMN and CNJ). As a result only PLD,
  WAR, SCH, MNK, DRG, NIN, BRD and BLM fall back to their base class when
  their label shows '-'. WHM and SMN never do (`JobTables.FallbackJobSet`,
  `LevelTotals.DashWithoutFallbackCountsNothing`).
- **`int` arithmetic.** Both totals are C# `int` running sums, and so is
  Total = battle + crafting. The model wraps each addition modulo 2^32
  (`Int32.Wrap`). Two labels that are each in `int` range can still
  wrap: "2147483647" and "1" sum to the least `int`
  (`LevelTotals.WrapSumCanWrap`). When every level lies
  between 0 and a bound b, and the table size times b is at most
  2^31 - 1 (for the 22 battle jobs, 22 * b <= 2^31 - 1), the total never
  wraps (`LevelTotals.WrapSumWithoutOverflow`).
- **Exceptions.** Every exception inside the update is caught and the
  label stays as it was. Two of the inputs that throw are modelled:
  - a crafting node that is missing, because it is dereferenced without a
    null check;
  - a name whose first '(' is its first character, because the cut
    `Substring(0, -1)` throws.

  In the model both give `None`. A present node whose component or
  component child 3 is missing also throws; that case is listed under
  "Left out".

Simplified rather than kept exactly: `int.TryParse` is modelled as an
optional '+' or '-' followed by one or more ASCII digits, with a value that
fits in `int`. .NET also accepts leading and trailing white space, such as
"90\n" or "\t90", which `Split(' ')` leaves in the token; the model rejects
those texts (see "Left out"). The parsed text is the part before the first
space, as `Split(' ')[0]` gives.

## Model

| member | source | states |
|---|---|---|
| Int32.Wrap | TotalLevelPlugin/SocialDetailBHandler.cs:207 | the result of a C# `int` addition: always in `int` range, unchanged when already in range, and equal to the exact value modulo 2^32 |
| Int32.WrapAdd | TotalLevelPlugin/SocialDetailBHandler.cs:207 | wrapping after every addition gives the same result as wrapping once at the end |
| LevelText.FirstToken | TotalLevelPlugin/SocialDetailBHandler.cs:205 | `Split(' ')[0]`: a prefix of the text with no space, followed by a space or by the end of the text |
| LevelText.FirstTokenOfWord | TotalLevelPlugin/SocialDetailBHandler.cs:205 | a space-free word followed by nothing or by a space is exactly the first token |
| LevelText.TryParseInt | TotalLevelPlugin/SocialDetailBHandler.cs:205 | parsing succeeds only on a signed digit string, and then gives a value in `int` range. On a signed digit string it succeeds exactly when the value fits in `int`, and the value is the digits' value, negated after a '-' |
| LevelText.PlusSignIgnored | TotalLevelPlugin/SocialDetailBHandler.cs:205 | a leading '+' does not change the result: "+5" reads as "5" does |
| LevelText.DigitsValueLeadingZero | TotalLevelPlugin/SocialDetailBHandler.cs:205 | a leading zero does not change the value of a run of digits |
| LevelText.LeadingZeroIgnored | TotalLevelPlugin/SocialDetailBHandler.cs:205 | a leading zero, after any sign, does not change the result: "07" reads as "7" and "-07" as "-7" |
| LevelText.NegativeRoundTrip | TotalLevelPlugin/SocialDetailBHandler.cs:205 | '-' followed by a written magnitude up to 2^31 reads back as its negation, down to the least `int` |
| LevelText.NatToString | TotalLevelPlugin/SocialDetailBHandler.cs:168 | the decimal form of a level is a non-empty digit string with no leading zero |
| LevelText.DigitsValueOfNatToString | TotalLevelPlugin/SocialDetailBHandler.cs:168 | the decimal form of `n` has digit value `n` |
| LevelText.ParseFormatRoundTrip | TotalLevelPlugin/SocialDetailBHandler.cs:205 | every level in `int` range, once formatted, parses back to itself |
| LevelText.ReadLevelRoundTrip | TotalLevelPlugin/SocialDetailBHandler.cs:205 | a label that starts with a level followed by a space (such as "90 ...") reads as that level |
| LevelTotals.LevelOf | TotalLevelPlugin/SocialDetailBHandler.cs:205 | the level a label shows: its first token must be a signed digit string, the value is in `int` range, and it is negative only when the label starts with '-' |
| LevelTotals.EntryText | TotalLevelPlugin/SocialDetailBHandler.cs:187-203 | the label a table entry reads: nothing when its node is missing or not a text node; when its label shows '-', the entry falls back and has a base class node, exactly that class node's label; otherwise its own label |
| LevelTotals.EntryLevel | TotalLevelPlugin/SocialDetailBHandler.cs:187-208 | an entry adds a level exactly when it reads a label and that label's first token parses; the level is in `int` range |
| LevelTotals.TotalLevels | TotalLevelPlugin/SocialDetailBHandler.cs:179-226 | the computation throws exactly when a crafting node is missing; otherwise each total is the exact sum of its table's levels reduced to `int` |
| LevelTotals.WrapSum | TotalLevelPlugin/SocialDetailBHandler.cs:181-209 | the running total of a loop stays in `int` range |
| LevelTotals.WrapSumStep | TotalLevelPlugin/SocialDetailBHandler.cs:205-208 | one more entry adds its level, wrapped, when the level parses, and adds nothing otherwise |
| LevelTotals.WrapSumIsWrappedSum | TotalLevelPlugin/SocialDetailBHandler.cs:207 | the running total equals the exact sum of the parsed levels reduced to `int` |
| LevelTotals.SumBounds | TotalLevelPlugin/SocialDetailBHandler.cs:185-209 | levels between 0 and a bound sum to at most the bound times the table size |
| LevelTotals.WrapSumWithoutOverflow | TotalLevelPlugin/SocialDetailBHandler.cs:185-209 | with levels between 0 and a bound and a small enough table, the running total never wraps and equals the exact sum |
| LevelTotals.WrapSumCanWrap | TotalLevelPlugin/SocialDetailBHandler.cs:207 | two levels that are each in `int` range, the greatest `int` and 1, wrap the running total to the least `int` |
| LevelTotals.WrapSumOfNothing | TotalLevelPlugin/SocialDetailBHandler.cs:181-182 | when no entry yields a level, the total stays at its initial 0 |
| LevelTotals.EntryLevelFrame | TotalLevelPlugin/SocialDetailBHandler.cs:187-205 | a table entry reads only its own node and, for a job that falls back, its class node |
| LevelTotals.TotalLevelsFrame | TotalLevelPlugin/SocialDetailBHandler.cs:179-226 | the totals depend only on the job, class and crafting nodes, so two windows that agree on those nodes give the same totals |
| LevelTotals.UnparsableLabelCountsAsNone | TotalLevelPlugin/SocialDetailBHandler.cs:205-222 | a label whose first token does not parse (such as "-" on a job with no fallback) adds the same as a missing text node: nothing |
| LevelTotals.NoLevelsNoTotals | TotalLevelPlugin/SocialDetailBHandler.cs:179-226 | a window in which no job, class or crafting label parses gives either no totals (the computation throws) or (0, 0), whatever the name label shows |
| LevelTotals.ExampleLabels | TotalLevelPlugin/SocialDetailBHandler.cs:205 | the label "30" reads as 30 and the label "-" of an unlevelled job reads as nothing |
| LevelTotals.DashFallbackCounts | TotalLevelPlugin/SocialDetailBHandler.cs:194-203 | PLD showing "-" counts the level 30 its Gladiator node shows |
| LevelTotals.DashWithoutFallbackCountsNothing | TotalLevelPlugin/SocialDetailBHandler.cs:194-203 | WHM showing "-" counts nothing, even when the Conjurer node shows 30, because of the misspelt keys |
| LevelTotals.FallbackOnlyForEight | TotalLevelPlugin/SocialDetailBHandler.cs:185-205 | on every window, each battle job other than PLD, WAR, SCH, MNK, DRG, NIN, BRD and BLM adds the same level with or without the '-' fallback |
| JobTables.FallbackClassNode | TotalLevelPlugin/SocialDetailBHandler.cs:194 | a job has a fallback node exactly when both `TryGetValue` lookups succeed, and that node is one of the class nodes |
| JobTables.FallbackJobs | TotalLevelPlugin/SocialDetailBHandler.cs:18-47 | the class node each of the eight fallback jobs reads, and that WHM and SMN have none |
| JobTables.FallbackJobSet | TotalLevelPlugin/SocialDetailBHandler.cs:18-77 | of the 22 battle jobs, exactly PLD, WAR, SCH, MNK, DRG, NIN, BRD and BLM fall back to a base class |
| JobTables.NodeIdsDisjoint | TotalLevelPlugin/SocialDetailBHandler.cs:16-93 | the name node, the job nodes, the class nodes and the crafting nodes are pairwise distinct |
| NameLabel.Marker | TotalLevelPlugin/SocialDetailBHandler.cs:157 | the marker is "(", the caption, " level-", the digits of the figure (which read back as the figure) and ")"; its only '(' is the first character and its only ')' the last, when the caption has none |
| NameLabel.Suffix | TotalLevelPlugin/SocialDetailBHandler.cs:168 | the appended suffix starts with " (" and ends with ")", so that the next cut removes it |
| NameLabel.Contains | TotalLevelPlugin/SocialDetailBHandler.cs:157 | `string.Contains`: true exactly when the marker occurs at some index of the name |
| NameLabel.FirstIndexOf | TotalLevelPlugin/SocialDetailBHandler.cs:163 | `IndexOf('(')`: none exactly when the name has no '(', and otherwise an index holding '(' with no '(' before it |
| NameLabel.FirstIndexOfAt | TotalLevelPlugin/SocialDetailBHandler.cs:163 | an index holding '(' with no '(' before it is the index `IndexOf` returns |
| NameLabel.BaseName | TotalLevelPlugin/SocialDetailBHandler.cs:160-165 | the cut name: the whole name when it has no '('; otherwise a '('-free prefix that ends one character before the first '('; none (the `Substring` throws) exactly when '(' is the first character |
| NameLabel.Splice | TotalLevelPlugin/SocialDetailBHandler.cs:160-168 | the new text is the cut name followed by " (<label> level-<n>)", so it contains the marker; it is missing exactly when the name starts with '(' |
| NameLabel.BaseNameOfSpliced | TotalLevelPlugin/SocialDetailBHandler.cs:160-168 | cutting a spliced name gives back the name it was spliced onto |
| NameLabel.SpliceReplacesSuffix | TotalLevelPlugin/SocialDetailBHandler.cs:160-168 | splicing an already spliced name replaces the old suffix instead of stacking a second one |
| NameLabel.SplicedMarkerOnly | TotalLevelPlugin/SocialDetailBHandler.cs:157-168 | the only marker a spliced name contains is the one it was spliced with, when the caption has no parentheses |
| AtkPanel.LabelTextAfterWrite | TotalLevelPlugin/SocialDetailBHandler.cs:145-169 | after `SetText` on a text node, that node shows the new text and every other node shows what it showed before |
| AtkPanel.Addon.SetText | TotalLevelPlugin/SocialDetailBHandler.cs:169 | the write changes that one node's text and nothing else |
| Config.Configuration.constructor | Configuration.cs:18-19 | a new configuration is enabled and shows the total level |
| SocialDetailB.DisplayFor | TotalLevelPlugin/SocialDetailBHandler.cs:134-139 | the caption is Combat, Crafting or Total, and names the figure shown: the battle total, the crafting total, or their `int` sum; the figure is in `int` range when both totals are |
| SocialDetailB.DisplayByMode | TotalLevelPlugin/SocialDetailBHandler.cs:134-139 | Combat shows the battle total, Crafting shows the crafting total, and Total shows their `int` sum; each mode has its own caption |
| SocialDetailB.Update | TotalLevelPlugin/SocialDetailBHandler.cs:109-169 | the label is rewritten exactly when all of the following hold: the handler is enabled, the window is loaded, the totals compute, the figure is positive, the name node is a text node, the name lacks the current marker, and the name does not start with '('. The new text is the splice of the name |
| SocialDetailB.UpdateIdempotent | TotalLevelPlugin/SocialDetailBHandler.cs:156-169 | a second update of a window the handler has just rewritten writes nothing |
| SocialDetailB.UpdateReplacesSuffix | TotalLevelPlugin/SocialDetailBHandler.cs:156-169 | whenever the update writes a label that an earlier update wrote, it gives the original name with the new suffix |
| SocialDetailB.MarkerInjective | TotalLevelPlugin/SocialDetailBHandler.cs:157 | two markers with captions among Combat, Crafting and Total are equal only for the same caption and the same figure |
| SocialDetailB.UpdateRefreshesStaleLabel | TotalLevelPlugin/SocialDetailBHandler.cs:156-169 | a label that an earlier update wrote with another caption or another figure is rewritten when the current figure is positive: the result is the original name with the current suffix |
| SocialDetailB.NoLevelsNoUpdate | TotalLevelPlugin/SocialDetailBHandler.cs:131-142 | a window in which no job, class or crafting label reads as a level is never relabelled, whatever its name label shows |
| SocialDetailB.SocialDetailBHandler.constructor | TotalLevelPlugin/SocialDetailBHandler.cs:95-98 | the handler keeps the configuration it is given |
| SocialDetailB.SocialDetailBHandler.OnSocialDetailBUpdate | TotalLevelPlugin/SocialDetailBHandler.cs:107-113 | the window ends up as `Update` says; when the handler is disabled nothing changes |
| SocialDetailB.SocialDetailBHandler.UpdateSocialDetailB | TotalLevelPlugin/SocialDetailBHandler.cs:115-177 | the name node is rewritten exactly as `Update` says, and no other node and not the loaded flag changes |
| SocialDetailB.SocialDetailBHandler.ReadJobLevel | TotalLevelPlugin/SocialDetailBHandler.cs:187-205 | one pass of the battle loop yields the level of the job's label, or of its class label after a '-' |
| SocialDetailB.SocialDetailBHandler.ReadCraftingLevel | TotalLevelPlugin/SocialDetailBHandler.cs:215-219 | one pass of the crafting loop yields the level of the class label |
| SocialDetailB.SocialDetailBHandler.SumBattleLevels | TotalLevelPlugin/SocialDetailBHandler.cs:185-209 | the battle loop computes the wrapped sum of the job levels in table order |
| SocialDetailB.SocialDetailBHandler.SumCraftingLevels | TotalLevelPlugin/SocialDetailBHandler.cs:212-223 | the crafting loop fails exactly when a crafting node is missing, and otherwise computes the wrapped sum of the class levels |
| SocialDetailB.SocialDetailBHandler.CalculateTotalLevelsFromAddon | TotalLevelPlugin/SocialDetailBHandler.cs:179-226 | the two loops together give the specified (battle, crafting) totals, or none when the computation throws |

## Left out

- Listener registration in the constructor and `Dispose` (SocialDetailBHandler.cs:99-105) are left out. They are event plumbing of the host.
- Debug and error logging (SocialDetailBHandler.cs:171, 175) is left out. It has no effect on the window.
- Pointer checks on the event arguments (SocialDetailBHandler.cs:119-125) are folded into one check: the `Addon` reference may be null.
- A present job or class node whose component or component child is missing is not modelled: the code dereferences it and throws. The model only distinguishes a missing node, a text node and any other node.
- LevelText.TryParseInt: does not model the .NET white space, culture and non-ASCII digit rules. A token such as "90\n" or "\t90", which .NET reads as 90, reads as nothing in the model; parsing accepts an optional ASCII sign and ASCII digits only.
- A `LevelDisplayMode` value outside the three named ones, such as one read from a hand-edited configuration file, is not modelled. The switch's default arm shows the Total figure, as the code does.
- Configuration's `Version`, `IsVisible`, `Initialize` and `Save` are left out. They carry no logic of their own.
- TotalLevelPlugin.cs, TotalLevelUI.cs and Service.cs are not part of this model. They hold configuration file I/O, commands, the settings window and host service wiring.
- The text encoding of host strings is not modelled; labels are sequences of characters.
- The model splits the two `foreach` loops and their bodies into the methods `SumBattleLevels`, `SumCraftingLevels`, `ReadJobLevel` and `ReadCraftingLevel`. The order of reads and the results are the same as in the single method of the source.
