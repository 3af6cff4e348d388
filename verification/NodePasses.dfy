/** The passes over the nodes of one zone: protecting (annotate and cordon),
    unprotecting, tainting and untainting, with any API call allowed to fail.

    A pass is given by what it does to each node; the methods of
    `NodeControllers` are proved to do exactly that. */
module NodePasses {
  import opened Sequences
  import opened Pools

  const DO_NOT_DISRUPT := "karpenter.sh/do-not-disrupt"
  const ZONAL_SHIFT_TAINT_KEY := "zonal-autoshift.eks.amazonaws.com/away-zone"

  datatype Node = Node(annotations: map<string, string>, unschedulable: bool, taints: seq<Taint>)

  type Nodes = map<string, Node>

  /** The API calls of a pass, by node name and by which of the two edits they serve. */
  datatype Call = Get(name: string, edit: Edit) | Put(name: string, edit: Edit)

  datatype Edit = First | Second

  datatype Program = Protect | Unprotect

  /** The node an edit writes back; `None` when there is nothing to write. */
  function Edited(program: Program, edit: Edit, node: Node): Option<Node> {
    match (program, edit)
    case (Protect, First) => Some(node.(annotations := node.annotations[DO_NOT_DISRUPT := "true"]))
    case (Protect, Second) => Some(node.(unschedulable := true))
    case (Unprotect, First) =>
      if DO_NOT_DISRUPT !in node.annotations then None
      else Some(node.(annotations := node.annotations - {DO_NOT_DISRUPT}))
    case (Unprotect, Second) =>
      if node.unschedulable then Some(node.(unschedulable := false)) else None
  }

  /** One edit went through, whether or not it had anything to write. */
  predicate Succeeds(program: Program, edit: Edit, name: string, node: Node, failing: set<Call>) {
    Get(name, edit) !in failing && (Edited(program, edit, node).Some? ==> Put(name, edit) !in failing)
  }

  function AfterEdit(program: Program, edit: Edit, name: string, node: Node, failing: set<Call>): Node {
    if Succeeds(program, edit, name, node, failing) && Edited(program, edit, node).Some?
    then Edited(program, edit, node).value
    else node
  }

  /** Both edits of a node, the second only if the first went through. */
  function AfterNode(program: Program, name: string, node: Node, failing: set<Call>): Node {
    if name == "" || !Succeeds(program, First, name, node, failing) then node
    else AfterEdit(program, Second, name, AfterEdit(program, First, name, node, failing), failing)
  }

  function AfterPass(program: Program, nodes: Nodes, names: set<string>, failing: set<Call>): Nodes {
    map n | n in nodes :: if n in names then AfterNode(program, n, nodes[n], failing) else nodes[n]
  }

  predicate HasKey(taints: seq<Taint>, key: string) {
    exists i :: 0 <= i < |taints| && taints[i].key == key
  }

  predicate HasShiftTaint(node: Node) {
    HasKey(node.taints, ZONAL_SHIFT_TAINT_KEY)
  }

  function Tainted(node: Node, az: string): Node {
    if HasShiftTaint(node) then node else node.(taints := node.taints + [Taint(ZONAL_SHIFT_TAINT_KEY, az, "NoExecute")])
  }

  function Untainted(node: Node): Node {
    node.(taints := Stripped(node.taints, ZONAL_SHIFT_TAINT_KEY))
  }

  /** The taints under other keys, in order. */
  function Stripped(taints: seq<Taint>, key: string): (r: seq<Taint>)
    ensures |r| <= |taints| && (|r| == |taints| ==> r == taints)
    ensures |r| == |taints| <==> !HasKey(taints, key)
  {
    if taints == [] then [] else
      HasKeySplit(taints, key);
      (if taints[0].key == key then [] else [taints[0]]) + Stripped(taints[1..], key)
  }

  lemma HasKeySplit(taints: seq<Taint>, key: string)
    requires taints != []
    ensures HasKey(taints, key) <==> taints[0].key == key || HasKey(taints[1..], key)
  {
    assert forall i :: 0 < i < |taints| ==> taints[i] == taints[1..][i - 1];
    if HasKey(taints[1..], key) {
      var i :| 0 <= i < |taints[1..]| && taints[1..][i].key == key;
      assert taints[i + 1].key == key;
    }
  }

  lemma {:induction false} StrippedAppend(taints: seq<Taint>, t: Taint, key: string)
    ensures Stripped(taints + [t], key) == Stripped(taints, key) + (if t.key == key then [] else [t])
  {
    if taints == [] {
      assert taints + [t] == [t];
    } else {
      assert (taints + [t])[1..] == taints[1..] + [t];
      StrippedAppend(taints[1..], t, key);
    }
  }

  /** The calls of a taint pass: one Get and at most one Put per node. */
  function TaintPass(nodes: Nodes, names: set<string>, az: string, failing: set<Call>): Nodes {
    map n | n in nodes ::
      if n in names && n != "" && Get(n, First) !in failing && Put(n, First) !in failing
      then Tainted(nodes[n], az)
      else nodes[n]
  }

  function UntaintPass(nodes: Nodes, names: set<string>, failing: set<Call>): Nodes {
    map n | n in nodes ::
      if n in names && n != "" && Get(n, First) !in failing && Put(n, First) !in failing
      then Untainted(nodes[n])
      else nodes[n]
  }

  /** A taint pass after another, each with its own failures. */
  function TaintPasses(nodes: Nodes, names: set<string>, az: string, failures: seq<set<Call>>): Nodes {
    if failures == [] then nodes else TaintPasses(TaintPass(nodes, names, az, failures[0]), names, az, failures[1..])
  }

  function ProtectPasses(nodes: Nodes, names: set<string>, failures: seq<set<Call>>): Nodes {
    if failures == [] then nodes else ProtectPasses(AfterPass(Protect, nodes, names, failures[0]), names, failures[1..])
  }

  lemma {:induction false} TaintPassesAppend(nodes: Nodes, names: set<string>, az: string, first: seq<set<Call>>,
                                            second: seq<set<Call>>)
    ensures TaintPasses(nodes, names, az, first + second) ==
            TaintPasses(TaintPasses(nodes, names, az, first), names, az, second)
  {
    if first == [] {
      assert first + second == second;
    } else {
      assert (first + second)[1..] == first[1..] + second;
      TaintPassesAppend(TaintPass(nodes, names, az, first[0]), names, az, first[1..], second);
    }
  }

  lemma {:induction false} TaintPassesOnlyTaint(nodes: Nodes, names: set<string>, az: string, failures: seq<set<Call>>)
    ensures var now := TaintPasses(nodes, names, az, failures);
      && now.Keys == nodes.Keys
      && (forall n :: n in nodes && (n !in names || n == "") ==> now[n] == nodes[n])
      && (forall n :: n in nodes ==> Untainted(now[n]) == Untainted(nodes[n]))
  {
    if failures != [] {
      var next := TaintPass(nodes, names, az, failures[0]);
      forall n | n in nodes
        ensures Untainted(next[n]) == Untainted(nodes[n])
      {
        StrippedAppend(nodes[n].taints, Taint(ZONAL_SHIFT_TAINT_KEY, az, "NoExecute"), ZONAL_SHIFT_TAINT_KEY);
      }
      TaintPassesOnlyTaint(next, names, az, failures[1..]);
    }
  }

  // ----- what the passes do to a node, in terms of the calls alone -----

  /** None of the four calls about a node fails. */
  predicate AllGoThrough(n: string, failing: set<Call>) {
    Get(n, First) !in failing && Put(n, First) !in failing && Get(n, Second) !in failing && Put(n, Second) !in failing
  }

  predicate FirstGoesThrough(n: string, failing: set<Call>) {
    Get(n, First) !in failing && Put(n, First) !in failing
  }

  /** A protect pass: the annotation if its Get and Put go through, and the cordon if
      after them the other Get and Put go through. */
  lemma ProtectNodeIs(n: string, node: Node, failing: set<Call>)
    requires n != ""
    ensures var now := AfterNode(Protect, n, node, failing);
      && now.taints == node.taints
      && now.annotations == (if !FirstGoesThrough(n, failing) then node.annotations
                             else node.annotations["karpenter.sh/do-not-disrupt" := "true"])
      && (now.unschedulable <==> node.unschedulable || AllGoThrough(n, failing))
  {
  }

  /** An unprotect pass: likewise, but a node that is not annotated needs no Put. */
  lemma UnprotectNodeIs(n: string, node: Node, failing: set<Call>)
    requires n != ""
    ensures var now := AfterNode(Unprotect, n, node, failing);
      var annotated := "karpenter.sh/do-not-disrupt" in node.annotations;
      var first := Get(n, First) !in failing && (annotated ==> Put(n, First) !in failing);
      && now.taints == node.taints
      && now.annotations == (if first then node.annotations - {"karpenter.sh/do-not-disrupt"} else node.annotations)
      && (now.unschedulable <==>
            node.unschedulable && !(first && Get(n, Second) !in failing && Put(n, Second) !in failing))
  {
    var key := "karpenter.sh/do-not-disrupt";
    assert key !in node.annotations ==> node.annotations - {key} == node.annotations;
  }

  /** The same for any number of protect passes, each with its own failures. */
  lemma {:induction false} ProtectPassesMark(nodes: Nodes, names: set<string>, failures: seq<set<Call>>, n: string)
    requires n in nodes && n in names && n != ""
    ensures var now := ProtectPasses(nodes, names, failures);
      && n in now && now[n].taints == nodes[n].taints
      && now[n].annotations == (if exists i :: 0 <= i < |failures| && FirstGoesThrough(n, failures[i])
                                then nodes[n].annotations["karpenter.sh/do-not-disrupt" := "true"]
                                else nodes[n].annotations)
      && (now[n].unschedulable <==>
            nodes[n].unschedulable || exists i :: 0 <= i < |failures| && AllGoThrough(n, failures[i]))
  {
    if failures != [] {
      var key := "karpenter.sh/do-not-disrupt";
      var rest := failures[1..];
      ProtectNodeIs(n, nodes[n], failures[0]);
      ProtectPassesMark(AfterPass(Protect, nodes, names, failures[0]), names, rest, n);
      assert nodes[n].annotations[key := "true"][key := "true"] == nodes[n].annotations[key := "true"];
      assert forall i :: 0 < i < |failures| ==> failures[i] == rest[i - 1];
      assert (exists i :: 0 <= i < |rest| && AllGoThrough(n, rest[i])) ==>
          exists i :: 0 <= i < |failures| && AllGoThrough(n, failures[i]) by {
        if i :| 0 <= i < |rest| && AllGoThrough(n, rest[i]) { assert AllGoThrough(n, failures[i + 1]); }
      }
      assert (exists i :: 0 <= i < |rest| && FirstGoesThrough(n, rest[i])) ==>
          exists i :: 0 <= i < |failures| && FirstGoesThrough(n, failures[i]) by {
        if i :| 0 <= i < |rest| && FirstGoesThrough(n, rest[i]) { assert FirstGoesThrough(n, failures[i + 1]); }
      }
    }
  }

  /** Some taint of the node carries the zonal-shift key. */
  predicate ShiftTainted(node: Node) {
    exists i :: 0 <= i < |node.taints| && node.taints[i].key == "zonal-autoshift.eks.amazonaws.com/away-zone"
  }

  /** One taint pass over one node. */
  lemma TaintNodeIs(nodes: Nodes, names: set<string>, az: string, failing: set<Call>, n: string)
    requires n in nodes && n in names && n != ""
    ensures TaintPass(nodes, names, az, failing)[n] ==
      if ShiftTainted(nodes[n]) || !FirstGoesThrough(n, failing) then nodes[n]
      else nodes[n].(taints := nodes[n].taints
                               + [Taint("zonal-autoshift.eks.amazonaws.com/away-zone", az, "NoExecute")])
  {
  }

  /** Any number of taint passes: the node is tainted exactly if it was before or in some
      pass its Get and Put went through; then one taint has been added, at the end. */
  lemma {:induction false} TaintPassesMark(nodes: Nodes, names: set<string>, az: string, failures: seq<set<Call>>,
                                          n: string)
    requires n in nodes && n in names && n != ""
    ensures var now := TaintPasses(nodes, names, az, failures);
      var tainted := exists i :: 0 <= i < |failures| && FirstGoesThrough(n, failures[i]);
      && n in now
      && (ShiftTainted(now[n]) <==> ShiftTainted(nodes[n]) || tainted)
      && now[n] == (if ShiftTainted(nodes[n]) || !tainted then nodes[n]
                    else nodes[n].(taints := nodes[n].taints
                                             + [Taint("zonal-autoshift.eks.amazonaws.com/away-zone", az, "NoExecute")]))
  {
    var added := nodes[n].taints + [Taint("zonal-autoshift.eks.amazonaws.com/away-zone", az, "NoExecute")];
    assert added[|nodes[n].taints|].key == "zonal-autoshift.eks.amazonaws.com/away-zone";
    if failures != [] {
      var rest := failures[1..];
      TaintNodeIs(nodes, names, az, failures[0], n);
      TaintPassesMark(TaintPass(nodes, names, az, failures[0]), names, az, rest, n);
      assert forall i :: 0 < i < |failures| ==> failures[i] == rest[i - 1];
      assert (exists i :: 0 <= i < |rest| && FirstGoesThrough(n, rest[i])) ==>
          exists i :: 0 <= i < |failures| && FirstGoesThrough(n, failures[i]) by {
        if i :| 0 <= i < |rest| && FirstGoesThrough(n, rest[i]) { assert FirstGoesThrough(n, failures[i + 1]); }
      }
    }
  }

  /** One untaint pass over one node. */
  lemma UntaintNodeIs(nodes: Nodes, names: set<string>, failing: set<Call>, n: string)
    requires n in nodes && n in names && n != ""
    ensures var now := UntaintPass(nodes, names, failing)[n];
      && now == nodes[n].(taints := now.taints)
      && (ShiftTainted(now) <==> ShiftTainted(nodes[n]) && !FirstGoesThrough(n, failing))
      && (!ShiftTainted(nodes[n]) || !FirstGoesThrough(n, failing) ==> now == nodes[n])
      && forall t: Taint :: t.key != "zonal-autoshift.eks.amazonaws.com/away-zone" ==>
           multiset(now.taints)[t] == multiset(nodes[n].taints)[t]
  {
    StrippedIs(nodes[n].taints, "zonal-autoshift.eks.amazonaws.com/away-zone");
  }

  lemma {:induction false} StrippedIs(taints: seq<Taint>, key: string)
    ensures !HasKey(Stripped(taints, key), key)
    ensures forall t: Taint :: t.key != key ==> multiset(Stripped(taints, key))[t] == multiset(taints)[t]
  {
    if taints != [] {
      StrippedIs(taints[1..], key);
      assert taints == [taints[0]] + taints[1..];
      HasKeySplitAll(taints, key);
    }
  }

  lemma HasKeySplitAll(taints: seq<Taint>, key: string)
    requires taints != [] && !HasKey(Stripped(taints[1..], key), key)
    ensures !HasKey(Stripped(taints, key), key)
  {
    var r := Stripped(taints, key);
    if r != [] && taints[0].key != key {
      HasKeySplit(r, key);
      assert r[1..] == Stripped(taints[1..], key);
    }
  }

  /** Taint round trip: after any number of taint passes over the nodes of a zone, with
      any failures, one untaint pass in which every call succeeds leaves exactly those
      nodes of the zone as they were at first that carried no zonal-shift taint to
      begin with; nodes outside the zone are never touched. */
  lemma TaintRoundTripIff(nodes: Nodes, names: set<string>, az: string, failures: seq<set<Call>>, n: string)
    requires n in nodes
    ensures var mid := TaintPasses(nodes, names, az, failures);
      var end := UntaintPass(mid, names, {});
      && n in end
      && (n !in names || n == "" ==> mid[n] == nodes[n] && end[n] == nodes[n])
      && (n in names && n != "" ==> (end[n] == nodes[n] <==> !HasShiftTaint(nodes[n])))
  {
    TaintPassesOnlyTaint(nodes, names, az, failures);
  }

  /** What protecting can have done to a node: some of the two edits. */
  ghost predicate PartlyProtected(before: Node, now: Node) {
    && now.taints == before.taints
    && (now.annotations == before.annotations || now.annotations == before.annotations[DO_NOT_DISRUPT := "true"])
    && (now.unschedulable == before.unschedulable || now.unschedulable)
  }

  lemma PartlyTwice(a: Node, b: Node, c: Node)
    requires PartlyProtected(a, b) && PartlyProtected(b, c)
    ensures PartlyProtected(a, c)
  {
    var key := DO_NOT_DISRUPT;
    assert a.annotations[key := "true"][key := "true"] == a.annotations[key := "true"];
  }

  lemma {:induction false} ProtectPassesProtect(nodes: Nodes, names: set<string>, failures: seq<set<Call>>)
    ensures var now := ProtectPasses(nodes, names, failures);
      && now.Keys == nodes.Keys
      && forall n :: n in nodes ==>
           if n in names && n != "" then PartlyProtected(nodes[n], now[n]) else now[n] == nodes[n]
  {
    if failures != [] {
      var next := AfterPass(Protect, nodes, names, failures[0]);
      ProtectPassesProtect(next, names, failures[1..]);
      forall n | n in nodes && n in names && n != ""
        ensures PartlyProtected(nodes[n], ProtectPasses(nodes, names, failures)[n])
      {
        PartlyTwice(nodes[n], next[n], ProtectPasses(next, names, failures[1..])[n]);
      }
    }
  }

  /** A successful unprotect undoes protection exactly on a node that had neither mark before. */
  lemma UnprotectNodeIff(name: string, before: Node, now: Node)
    requires name != "" && PartlyProtected(before, now)
    ensures AfterNode(Unprotect, name, now, {}) == before <==>
      !before.unschedulable && DO_NOT_DISRUPT !in before.annotations
  {
    var key := DO_NOT_DISRUPT;
    var end := AfterNode(Unprotect, name, now, {});
    assert end == Node(now.annotations - {key}, false, now.taints);
    assert key !in before.annotations ==> end.annotations == before.annotations;
    assert key !in end.annotations;
  }

  /** Protection round trip: after any number of protect passes with any failures, one
      unprotect pass in which every call succeeds restores a node of the zone exactly
      when the node was schedulable and not annotated at the start: a node that an
      operator had cordoned or annotated loses that. */
  lemma ProtectionRoundTripIff(nodes: Nodes, names: set<string>, failures: seq<set<Call>>, n: string)
    requires n in nodes
    ensures var mid := ProtectPasses(nodes, names, failures);
      var end := AfterPass(Unprotect, mid, names, {});
      && n in end
      && (n !in names || n == "" ==> mid[n] == nodes[n] && end[n] == nodes[n])
      && (n in names && n != "" ==>
          (end[n] == nodes[n] <==> !nodes[n].unschedulable && DO_NOT_DISRUPT !in nodes[n].annotations))
  {
    ProtectPassesProtect(nodes, names, failures);
    if n in names && n != "" {
      UnprotectNodeIff(n, nodes[n], ProtectPasses(nodes, names, failures)[n]);
    }
  }
}
