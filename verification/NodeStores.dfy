/** The store of tracked nodes, keyed by node name. */
module NodeStores {
  import opened Sequences

  datatype NodeInfo = NodeInfo(nodeName: string, availabilityZone: string)

  /** The nodes a query for `az` is about; the empty zone asks for all of them. */
  function InZone(nodes: map<string, NodeInfo>, az: string): set<string> {
    set n | n in nodes && (az == "" || nodes[n].availabilityZone == az)
  }

  function NodeNames(infos: seq<NodeInfo>): (names: seq<string>)
    ensures |names| == |infos| && forall i :: 0 <= i < |infos| ==> names[i] == infos[i].nodeName
  {
    seq(|infos|, i requires 0 <= i < |infos| => infos[i].nodeName)
  }

  function NameSet(names: seq<string>): set<string> {
    set i | 0 <= i < |names| :: names[i]
  }

  /** Every node asked for, once each, in no particular order. */
  ghost predicate Answers(nodes: map<string, NodeInfo>, az: string, infos: seq<NodeInfo>) {
    && NoDuplicates(NodeNames(infos))
    && NameSet(NodeNames(infos)) == InZone(nodes, az)
    && forall i :: 0 <= i < |infos| ==> infos[i].nodeName in nodes && infos[i] == nodes[infos[i].nodeName]
  }

  class NodeStore {
    var nodes: map<string, NodeInfo>

    ghost predicate Valid()
      reads this
    {
      forall n :: n in nodes ==> nodes[n].nodeName == n
    }

    constructor ()
      ensures Valid() && nodes == map[]
    {
      nodes := map[];
    }

    method AddNode(nodeName: string, az: string)
      requires Valid()
      modifies this
      ensures Valid() && nodes == old(nodes)[nodeName := NodeInfo(nodeName, az)]
    {
      nodes := nodes[nodeName := NodeInfo(nodeName, az)];
    }

    method RemoveNode(nodeName: string)
      requires Valid()
      modifies this
      ensures Valid() && nodes == old(nodes) - {nodeName}
    {
      nodes := nodes - {nodeName};
    }

    method GetNodesByAZ(az: string) returns (result: seq<NodeInfo>)
      requires Valid()
      ensures Answers(nodes, az, result)
      ensures az != "" ==> forall i :: 0 <= i < |result| ==> result[i].availabilityZone == az
      ensures forall n :: n in nodes && (az == "" || nodes[n].availabilityZone == az) ==> nodes[n] in result
    {
      result := [];
      var rest := nodes.Keys;
      while rest != {}
        invariant rest <= nodes.Keys
        invariant NoDuplicates(NodeNames(result))
        invariant az != "" ==> forall i :: 0 <= i < |result| ==> result[i].availabilityZone == az
        invariant forall n :: n in nodes && n !in rest && (az == "" || nodes[n].availabilityZone == az) ==>
          nodes[n] in result
        invariant NameSet(NodeNames(result)) == InZone(nodes, az) - rest
        invariant forall i :: 0 <= i < |result| ==>
          result[i].nodeName in nodes && result[i] == nodes[result[i].nodeName]
        decreases rest
      {
        var n :| n in rest;
        rest := rest - {n};
        if az == "" || nodes[n].availabilityZone == az {
          NameSetAppend(NodeNames(result), n);
          assert NodeNames(result + [nodes[n]]) == NodeNames(result) + [n];
          assert n !in NameSet(NodeNames(result));
          result := result + [nodes[n]];
        }
      }
    }

    method GetAllNodes() returns (result: seq<NodeInfo>)
      requires Valid()
      ensures Answers(nodes, "", result) && NameSet(NodeNames(result)) == nodes.Keys
    {
      result := GetNodesByAZ("");
    }
  }

  lemma NameSetAppend(names: seq<string>, n: string)
    ensures NameSet(names + [n]) == NameSet(names) + {n}
    ensures n !in NameSet(names) && NoDuplicates(names) ==> NoDuplicates(names + [n])
  {
    var more := names + [n];
    assert forall i :: 0 <= i < |names| ==> more[i] == names[i];
    assert more[|names|] == n;
    assert forall i :: 0 <= i < |names| ==> names[i] in NameSet(names);
  }
}
