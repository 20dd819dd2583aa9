/** The part of the host's SocialDetailB window that the handler touches,
    reduced to node IDs and label texts. */
module AtkPanel {
  import opened Wrappers

  /** A node as the handler sees it. For the name node, whether the node is
      a text node; for a job or class node, whether the child node 3 of its
      component is a text node. */
  datatype Node = TextNode(text: string) | OtherNode

  /** The window's nodes by ID; an absent ID is a node `GetNodeById` does not find. */
  type Panel = map<nat, Node>

  /** The text of node `id`, when there is such a node and it is a text node. */
  function LabelText(panel: Panel, id: nat): Option<string> {
    if id in panel && panel[id].TextNode? then Some(panel[id].text) else None
  }

  /** Writing the text of a text node shows the new text at that node and
      leaves what every other node shows as it was. */
  lemma LabelTextAfterWrite(panel: Panel, id: nat, text: string, other: nat)
    requires id in panel && panel[id].TextNode?
    ensures LabelText(panel[id := TextNode(text)], id) == Some(text)
    ensures other != id ==> LabelText(panel[id := TextNode(text)], other) == LabelText(panel, other)
  {
  }

  /** The live window: its nodes, and whether the host reports it fully loaded. */
  class Addon {
    var nodes: Panel
    var fullyLoaded: bool

    constructor (nodes: Panel, fullyLoaded: bool)
      ensures this.nodes == nodes && this.fullyLoaded == fullyLoaded
    {
      this.nodes := nodes;
      this.fullyLoaded := fullyLoaded;
    }

    /** `AtkTextNode.SetText`: replaces the text of a text node in place. */
    method SetText(id: nat, text: string)
      requires id in nodes && nodes[id].TextNode?
      modifies this
      ensures nodes == old(nodes)[id := TextNode(text)]
      ensures fullyLoaded == old(fullyLoaded)
    {
      nodes := nodes[id := TextNode(text)];
    }
  }
}
