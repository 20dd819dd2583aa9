/** The fixed node IDs of the SocialDetailB window and the job-to-class
    table, with the acronyms exactly as the handler spells them. */
module JobTables {
  import opened Wrappers

  /** The character-name text node. */
  const NameNodeId: nat := 3

  /** Job to base class. The keys "WMH" and "SUM" match no job acronym
      (the jobs are "WHM" and "SMN"). */
  const JobToClass: map<string, string> := map[
    "PLD" := "GLA", "WAR" := "MRD", "WMH" := "CNJ", "SCH" := "ACN", "MNK" := "PUG",
    "DRG" := "LNC", "NIN" := "ROG", "BRD" := "ARC", "BLM" := "THM", "SUM" := "ACN"]

  /** Base class to its node. The key "CJN" matches no class acronym
      (the class is "CNJ"). */
  const ClassNodeIds: map<string, nat> := map[
    "GLA" := 44, "MRD" := 45, "CJN" := 53, "PUG" := 63, "LNC" := 64,
    "ROG" := 65, "ARC" := 72, "THM" := 81, "ACN" := 82]

  /** The 22 battle jobs and their nodes, in declaration order. */
  const JobNodeIds: seq<(string, nat)> := [
    ("PLD", 39), ("WAR", 40), ("DRK", 41), ("GNB", 42),
    ("WHM", 48), ("SCH", 49), ("AST", 50), ("SGE", 51),
    ("MNK", 57), ("DRG", 58), ("NIN", 59), ("SAM", 60), ("RPR", 61), ("VPR", 62),
    ("BRD", 67), ("MCH", 68), ("DNC", 69),
    ("BLM", 76), ("SMN", 77), ("RDM", 78), ("PCT", 79), ("BLU", 80)]

  /** The 11 crafting and gathering classes and their nodes, in declaration order. */
  const DohNodeIds: seq<(string, nat)> := [
    ("CRP", 85), ("BSM", 86), ("ARM", 87), ("GSM", 88),
    ("LTW", 89), ("WVR", 90), ("ALC", 91), ("CUL", 92),
    ("MIN", 94), ("BTN", 95), ("FSH", 96)]

  /** The class node a job falls back to: both `jobToClass` and
      `classNodeIds` must have an entry. */
  function FallbackClassNode(job: string): (r: Option<nat>)
    ensures r.Some? <==> job in JobToClass && JobToClass[job] in ClassNodeIds
    ensures r.Some? ==> r.value in ClassNodeIds.Values
  {
    if job in JobToClass && JobToClass[job] in ClassNodeIds
    then Some(ClassNodeIds[JobToClass[job]])
    else None
  }

  /** The IDs of the nodes in a table. */
  function EntryIds(entries: seq<(string, nat)>): set<nat> {
    set k | 0 <= k < |entries| :: entries[k].1
  }

  /** The class node each fallback job reads. Because of the misspelt keys,
      WHM and SMN have none. */
  lemma FallbackJobs()
    ensures FallbackClassNode("PLD") == Some(44) && FallbackClassNode("WAR") == Some(45)
    ensures FallbackClassNode("SCH") == Some(82) && FallbackClassNode("MNK") == Some(63)
    ensures FallbackClassNode("DRG") == Some(64) && FallbackClassNode("NIN") == Some(65)
    ensures FallbackClassNode("BRD") == Some(72) && FallbackClassNode("BLM") == Some(81)
    ensures FallbackClassNode("WHM") == None && FallbackClassNode("SMN") == None
  {
  }

  /** Of the 22 battle jobs, exactly PLD, WAR, SCH, MNK, DRG, NIN, BRD and
      BLM fall back to a base class. */
  lemma FallbackJobSet()
    ensures forall k | 0 <= k < |JobNodeIds| ::
      FallbackClassNode(JobNodeIds[k].0).Some? <==>
      JobNodeIds[k].0 in {"PLD", "WAR", "SCH", "MNK", "DRG", "NIN", "BRD", "BLM"}
  {
  }

  /** The name node, the job nodes, the class nodes and the crafting nodes
      are four disjoint sets of IDs. */
  lemma NodeIdsDisjoint()
    ensures NameNodeId !in EntryIds(JobNodeIds) + EntryIds(DohNodeIds) + ClassNodeIds.Values
    ensures EntryIds(JobNodeIds) !! ClassNodeIds.Values
    ensures EntryIds(DohNodeIds) !! ClassNodeIds.Values
    ensures EntryIds(JobNodeIds) !! EntryIds(DohNodeIds)
  {
  }
}
