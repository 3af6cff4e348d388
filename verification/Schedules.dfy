/** The batch runner and a node pass put together: every worker inside `processFn`
    goes through its batch with a Get and an Update per edit, each its own step,
    while the other workers do the same.

    The result is independent of the schedule, because the store hands out distinct
    names and the batches are disjoint. */
module Schedules {
  import opened Sequences
  import opened Batches
  import BatchRunner
  import opened NodePasses
  import opened NodeStores

  /** Where a worker is in its batch; `held` is the node it will write back. */
  datatype Desk = Desk(next: nat, stage: Stage)

  datatype Stage =
    | Getting(edit: Edit)
    | Putting(edit: Edit, held: Node)

  /** The fixed inputs of one pass. */
  datatype Job = Job(program: Program, batches: seq<seq<string>>, failing: set<Call>)

  datatype State = State(runner: BatchRunner.State, nodes: Nodes, desks: seq<Desk>)

  datatype Step = Coordinate(step: BatchRunner.Step) | Work(w: nat)

  function Init(job: Job, nodes: Nodes): State {
    State(BatchRunner.Init(|job.batches|, false), nodes, seq(|job.batches|, _ => Desk(0, Getting(First))))
  }

  predicate AtDesk(job: Job, s: State, w: nat) {
    w < |s.desks| && |s.desks| == |job.batches| && s.desks[w].next < |job.batches[w]|
  }

  /** The context is never cancelled, and `processFn` returns nil, at the end of its batch. */
  predicate Enabled(job: Job, s: State, step: Step) {
    match step
    case Coordinate(Cancel) => false
    case Coordinate(Return(w, result)) =>
      BatchRunner.Enabled(s.runner, step.step) && result.None? && w < |s.desks| && !AtDesk(job, s, w)
    case Coordinate(inner) => BatchRunner.Enabled(s.runner, inner)
    case Work(w) => w < |s.runner.workers| && s.runner.workers[w].Running? && AtDesk(job, s, w)
  }

  /** One step through the loop over the batch. */
  function WorkAt(job: Job, name: string, desk: Desk, nodes: Nodes): (Desk, Nodes) {
    var skip := Desk(desk.next + 1, Getting(First));
    match desk.stage
    case Getting(edit) =>
      if name == "" || name !in nodes || Get(name, edit) in job.failing then (skip, nodes)
      else (
        match Edited(job.program, edit, nodes[name])
        case Some(node) => (desk.(stage := Putting(edit, node)), nodes)
        case None => (AfterEditAt(desk, edit), nodes))
    case Putting(edit, held) =>
      if name !in nodes || Put(name, edit) in job.failing then (skip, nodes)
      else (AfterEditAt(desk, edit), nodes[name := held])
  }

  function AfterEditAt(desk: Desk, edit: Edit): Desk {
    if edit == First then desk.(stage := Getting(Second)) else Desk(desk.next + 1, Getting(First))
  }

  function Apply(job: Job, s: State, step: Step): State
    requires Enabled(job, s, step)
  {
    match step
    case Coordinate(inner) => s.(runner := BatchRunner.Apply(s.runner, inner))
    case Work(w) =>
      var (desk, nodes) := WorkAt(job, job.batches[w][s.desks[w].next], s.desks[w], s.nodes);
      s.(desks := s.desks[w := desk], nodes := nodes)
  }

  ghost predicate ValidRun(job: Job, s: State, steps: seq<Step>)
    decreases |steps|
  {
    steps == [] || (Enabled(job, s, steps[0]) && ValidRun(job, Apply(job, s, steps[0]), steps[1..]))
  }

  ghost function Run(job: Job, s: State, steps: seq<Step>): State
    requires ValidRun(job, s, steps)
    decreases |steps|
  {
    if steps == [] then s else Run(job, Apply(job, s, steps[0]), steps[1..])
  }

  // ----- the invariant: each node is where its own worker has brought it -----

  /** The node called `name`, `before` at the start, when its worker's desk is at `desk`
      and the node is item `p` of that batch. */
  function Expected(job: Job, name: string, before: Node, desk: Desk, p: nat): Node {
    if p < desk.next then AfterNode(job.program, name, before, job.failing)
    else if p == desk.next && desk.stage.edit == Second then AfterEdit(job.program, First, name, before, job.failing)
    else before
  }

  /** What a desk at work on the node implies about the calls made so far. */
  predicate StageOk(job: Job, name: string, before: Node, stage: Stage) {
    var node := if stage.edit == First then before else AfterEdit(job.program, First, name, before, job.failing);
    && (stage.edit == Second ==> name != "" && Succeeds(job.program, First, name, before, job.failing))
    && (stage.Putting? ==>
          name != "" && Get(name, stage.edit) !in job.failing &&
            Edited(job.program, stage.edit, node) == Some(stage.held))
  }

  ghost predicate NodeOk(job: Job, names: seq<string>, before: Nodes, s: State, k: nat)
    requires k < |names|
  {
    names[k] in before ==>
      && k / BATCH_SIZE < |s.desks|
      && names[k] in s.nodes
      && s.nodes[names[k]] == Expected(job, names[k], before[names[k]], s.desks[k / BATCH_SIZE], k % BATCH_SIZE)
      && (k % BATCH_SIZE == s.desks[k / BATCH_SIZE].next ==>
          StageOk(job, names[k], before[names[k]], s.desks[k / BATCH_SIZE].stage))
  }

  ghost predicate JobOk(job: Job, names: seq<string>) {
    IsPartition(names, job.batches) && NoDuplicates(names)
  }

  ghost predicate Inv(job: Job, names: seq<string>, before: Nodes, s: State)
    requires JobOk(job, names)
  {
    && BatchRunner.Inv(s.runner) && !s.runner.cancelled
    && |s.runner.workers| == |s.desks| == |job.batches| == BatchCount(|names|)
    && s.nodes.Keys == before.Keys
    && (forall n :: n in before && n !in names ==> s.nodes[n] == before[n])
    && (forall k :: 0 <= k < |names| ==> NodeOk(job, names, before, s, k))
    && (forall w :: 0 <= w < |s.desks| ==>
        s.desks[w].next <= |job.batches[w]| &&
          (s.desks[w].stage != Getting(First) ==> s.desks[w].next < |job.batches[w]|))
    && (forall w :: w in s.runner.returned ==>
        w < |s.desks| && s.runner.returned[w].None? && s.desks[w].next == |job.batches[w]|)
    && (forall w :: 0 <= w < |s.desks| && s.runner.workers[w].Running? ==> w !in s.runner.returned)
  }

  /** Item `p` of batch `w` is name `5w + p`. */
  lemma ItemAt(names: seq<string>, batches: seq<seq<string>>, w: nat, p: nat)
    requires IsPartition(names, batches) && w < |batches| && p < |batches[w]|
    ensures BATCH_SIZE * w + p < |names| && batches[w][p] == names[BATCH_SIZE * w + p]
    ensures (BATCH_SIZE * w + p) / BATCH_SIZE == w && (BATCH_SIZE * w + p) % BATCH_SIZE == p
  {
    PartitionUnique(names, batches);
    assert batches[w] == names[w * BATCH_SIZE..Min((w + 1) * BATCH_SIZE, |names|)];
    assert p < 5;
  }

  /** Every name has a batch and a place in it. */
  lemma PlaceOf(names: seq<string>, batches: seq<seq<string>>, k: nat)
    requires IsPartition(names, batches) && k < |names|
    ensures k / BATCH_SIZE < |batches| == BatchCount(|names|) && k % BATCH_SIZE < |batches[k / BATCH_SIZE]|
  {
    PartitionUnique(names, batches);
    var w := k / BATCH_SIZE;
    assert w < |batches|;
    assert batches[w] == names[w * BATCH_SIZE..Min((w + 1) * BATCH_SIZE, |names|)];
  }

  lemma InitInv(job: Job, names: seq<string>, nodes: Nodes)
    requires JobOk(job, names)
    ensures Inv(job, names, nodes, Init(job, nodes))
  {
    BatchRunner.InitInv(|job.batches|, false);
    PartitionUnique(names, job.batches);
    forall k | 0 <= k < |names|
      ensures NodeOk(job, names, nodes, Init(job, nodes), k)
    {
      PlaceOf(names, job.batches, k);
    }
  }

  /** What one step at a desk does to the node it is about. */
  lemma DeskStep(job: Job, name: string, before: Node, desk: Desk, nodes: Nodes, p: nat)
    requires name in nodes && p == desk.next
    requires nodes[name] == Expected(job, name, before, desk, p) && StageOk(job, name, before, desk.stage)
    ensures var (desk', nodes') := WorkAt(job, name, desk, nodes);
      && nodes'.Keys == nodes.Keys
      && nodes'[name] == Expected(job, name, before, desk', p)
      && (desk'.next == p ==> StageOk(job, name, before, desk'.stage))
      && (forall n :: n in nodes && n != name ==> nodes'[n] == nodes[n])
  {
  }

  /** The step is about item `next` of batch `w`, and about no other name. */
  lemma WorkNodes(job: Job, names: seq<string>, before: Nodes, s: State, w: nat)
    requires JobOk(job, names) && Inv(job, names, before, s) && Enabled(job, s, Work(w))
    ensures var t := Apply(job, s, Work(w)); var p := s.desks[w].next;
      && |t.desks| == |s.desks| && t.nodes.Keys == s.nodes.Keys
      && (t.desks[w].next == p || t.desks[w] == Desk(p + 1, Getting(First)))
      && (forall v :: 0 <= v < |s.desks| && v != w ==> t.desks[v] == s.desks[v])
      && (forall n :: n in s.nodes && n != job.batches[w][p] ==> t.nodes[n] == s.nodes[n])
      && BATCH_SIZE * w + p < |names| && names[BATCH_SIZE * w + p] == job.batches[w][p]
      && (BATCH_SIZE * w + p) / BATCH_SIZE == w && (BATCH_SIZE * w + p) % BATCH_SIZE == p
      && NodeOk(job, names, before, t, BATCH_SIZE * w + p)
  {
    var p := s.desks[w].next;
    ItemAt(names, job.batches, w, p);
    var mine := BATCH_SIZE * w + p;
    assert NodeOk(job, names, before, s, mine);
    if names[mine] in before {
      DeskStep(job, names[mine], before[names[mine]], s.desks[w], s.nodes, p);
    }
  }

  lemma WorkInv(job: Job, names: seq<string>, before: Nodes, s: State, w: nat)
    requires JobOk(job, names) && Inv(job, names, before, s) && Enabled(job, s, Work(w))
    ensures Inv(job, names, before, Apply(job, s, Work(w)))
  {
    WorkNodes(job, names, before, s, w);
    var t := Apply(job, s, Work(w));
    var mine := BATCH_SIZE * w + s.desks[w].next;
    forall k | 0 <= k < |names|
      ensures NodeOk(job, names, before, t, k)
    {
      assert NodeOk(job, names, before, s, k);
      if k != mine {
        assert names[k] != names[mine];
        assert k / BATCH_SIZE == w ==> k % BATCH_SIZE != s.desks[w].next;
      }
    }
  }

  lemma CoordinateInv(job: Job, names: seq<string>, before: Nodes, s: State, step: BatchRunner.Step)
    requires JobOk(job, names) && Inv(job, names, before, s) && Enabled(job, s, Coordinate(step))
    ensures Inv(job, names, before, Apply(job, s, Coordinate(step)))
  {
    BatchRunner.StepInv(s.runner, step);
    var t := Apply(job, s, Coordinate(step));
    forall k | 0 <= k < |names|
      ensures NodeOk(job, names, before, t, k)
    {
      assert NodeOk(job, names, before, s, k);
    }
    forall w | 0 <= w < |t.desks| && t.runner.workers[w].Running?
      ensures w !in t.runner.returned
    {
      assert BatchRunner.HistoryOk(t.runner.workers[w], w, t.runner.calls, t.runner.returned, t.runner.cancelled);
    }
  }

  lemma {:induction false} RunInv(job: Job, names: seq<string>, before: Nodes, s: State, steps: seq<Step>)
    requires JobOk(job, names) && Inv(job, names, before, s) && ValidRun(job, s, steps)
    ensures Inv(job, names, before, Run(job, s, steps))
    decreases |steps|
  {
    if steps != [] {
      StepKeepsInv(job, names, before, s, steps[0]);
      RunInv(job, names, before, Apply(job, s, steps[0]), steps[1..]);
    }
  }

  /** Schedule independence: with the failures of the API calls fixed, every
      interleaving of the workers that reaches the end reports success and leaves the
      cluster in the state of one sequential pass over the same nodes. */
  lemma EveryScheduleEndsAlike(job: Job, names: seq<string>, nodes: Nodes, steps: seq<Step>)
    requires JobOk(job, names)
    requires ValidRun(job, Init(job, nodes), steps)
    requires Run(job, Init(job, nodes), steps).runner.caller.Finished?
    ensures var end := Run(job, Init(job, nodes), steps);
      && end.runner.caller.result == None
      && end.nodes == AfterPass(job.program, nodes, NameSet(names), job.failing)
  {
    InitInv(job, names, nodes);
    RunInv(job, names, nodes, Init(job, nodes), steps);
    FinishedIsPass(job, names, nodes, Run(job, Init(job, nodes), steps));
  }

  /** The invariant, once the caller has returned. */
  lemma FinishedIsPass(job: Job, names: seq<string>, before: Nodes, end: State)
    requires JobOk(job, names) && Inv(job, names, before, end) && end.runner.caller.Finished?
    ensures end.runner.caller.result == None
    ensures end.nodes == AfterPass(job.program, before, NameSet(names), job.failing)
  {
    if end.runner.caller.result.Some? {
      BatchRunner.ErrorResult(end.runner);
      assert false;
    }
    BatchRunner.NilResult(end.runner);
    forall n | n in before && n in names
      ensures end.nodes[n] == AfterNode(job.program, n, before[n], job.failing)
    {
      var k :| 0 <= k < |names| && names[k] == n;
      assert NodeOk(job, names, before, end, k);
      PlaceOf(names, job.batches, k);
      assert k / BATCH_SIZE in end.runner.returned;
    }
  }

  /** Protection round trip under every schedule: protect the nodes of a zone with any
      failures, later unprotect them with none, each in its own interleaving and its own
      order of the same nodes.  A node of the zone is back as it was exactly when it had
      been schedulable and unannotated; no other node is touched. */
  lemma SchedulesRoundTripIff(store: map<string, NodeInfo>, az: string, nodes: Nodes, failing: set<Call>,
                              out: seq<NodeInfo>, outBatches: seq<seq<string>>, outSteps: seq<Step>,
                              back: seq<NodeInfo>, backBatches: seq<seq<string>>, backSteps: seq<Step>)
    requires Answers(store, az, out) && Answers(store, az, back)
    requires IsPartition(NodeNames(out), outBatches) && IsPartition(NodeNames(back), backBatches)
    requires ValidRun(Job(Protect, outBatches, failing), Init(Job(Protect, outBatches, failing), nodes), outSteps)
    requires var mid := Run(Job(Protect, outBatches, failing), Init(Job(Protect, outBatches, failing), nodes),
                            outSteps);
      && mid.runner.caller.Finished?
      && ValidRun(Job(Unprotect, backBatches, {}), Init(Job(Unprotect, backBatches, {}), mid.nodes), backSteps)
      && Run(Job(Unprotect, backBatches, {}), Init(Job(Unprotect, backBatches, {}), mid.nodes),
             backSteps).runner.caller.Finished?
    ensures var mid := Run(Job(Protect, outBatches, failing), Init(Job(Protect, outBatches, failing), nodes),
                           outSteps).nodes;
      var end := Run(Job(Unprotect, backBatches, {}), Init(Job(Unprotect, backBatches, {}), mid), backSteps).nodes;
      && mid.Keys == nodes.Keys && end.Keys == nodes.Keys
      && forall n :: n in nodes ==>
           if n in InZone(store, az) && n != ""
             then (end[n] == nodes[n] <==> !nodes[n].unschedulable && DO_NOT_DISRUPT !in nodes[n].annotations)
           else mid[n] == nodes[n] && end[n] == nodes[n]
  {
    var there, home := Job(Protect, outBatches, failing), Job(Unprotect, backBatches, {});
    var zone := InZone(store, az);
    EveryScheduleEndsAlike(there, NodeNames(out), nodes, outSteps);
    var mid := Run(there, Init(there, nodes), outSteps).nodes;
    assert mid == AfterPass(Protect, nodes, zone, failing);
    EveryScheduleEndsAlike(home, NodeNames(back), mid, backSteps);
    OnePass(nodes, zone, failing);
    forall n | n in nodes {
      ProtectionRoundTripIff(nodes, zone, [failing], n);
    }
  }

  lemma OnePass(nodes: Nodes, names: set<string>, failing: set<Call>)
    ensures ProtectPasses(nodes, names, [failing]) == AfterPass(Protect, nodes, names, failing)
  {
    var rest: seq<set<Call>> := [failing][1..];
    assert rest == [] && ProtectPasses(AfterPass(Protect, nodes, names, failing), names, rest) ==
      AfterPass(Protect, nodes, names, failing);
  }

  // ----- every schedule does reach the end -----

  function StageWork(stage: Stage): nat {
    match stage
    case Getting(First) => 0
    case Putting(First, _) => 1
    case Getting(Second) => 2
    case Putting(Second, _) => 3
  }

  /** The steps left at a desk. */
  function DeskWork(total: nat, desk: Desk): nat {
    if desk.next >= total then 0 else 4 * (total - desk.next) - StageWork(desk.stage)
  }

  function DesksWork(batches: seq<seq<string>>, desks: seq<Desk>): nat
    requires |batches| == |desks|
  {
    if desks == [] then 0 else DeskWork(|batches[0]|, desks[0]) + DesksWork(batches[1..], desks[1..])
  }

  lemma {:induction false} DesksWorkUpdate(batches: seq<seq<string>>, desks: seq<Desk>, w: nat, desk: Desk)
    requires |batches| == |desks| && w < |desks|
    ensures DesksWork(batches, desks[w := desk]) + DeskWork(|batches[w]|, desks[w]) ==
      DesksWork(batches, desks) + DeskWork(|batches[w]|, desk)
  {
    if w == 0 {
      assert desks[w := desk][1..] == desks[1..];
    } else {
      assert desks[w := desk][1..] == desks[1..][w - 1 := desk];
      DesksWorkUpdate(batches[1..], desks[1..], w - 1, desk);
    }
  }

  lemma {:induction false} FreshDesks(batches: seq<seq<string>>, desks: seq<Desk>)
    requires |batches| == |desks| && forall w :: 0 <= w < |desks| ==> desks[w] == Desk(0, Getting(First))
    ensures DesksWork(batches, desks) == 4 * |Flatten(batches)|
  {
    if desks != [] {
      FreshDesks(batches[1..], desks[1..]);
    }
  }

  function Rank(job: Job, s: State): nat
    requires |job.batches| == |s.desks|
  {
    BatchRunner.Rank(s.runner) + DesksWork(job.batches, s.desks)
  }

  lemma WorkLowersRank(job: Job, s: State, w: nat)
    requires Enabled(job, s, Work(w))
    ensures |Apply(job, s, Work(w)).desks| == |s.desks| && Rank(job, Apply(job, s, Work(w))) < Rank(job, s)
  {
    var desk := WorkAt(job, job.batches[w][s.desks[w].next], s.desks[w], s.nodes).0;
    assert DeskWork(|job.batches[w]|, desk) < DeskWork(|job.batches[w]|, s.desks[w]);
    DesksWorkUpdate(job.batches, s.desks, w, desk);
  }

  lemma {:induction false} RankBoundsRun(job: Job, names: seq<string>, before: Nodes, s: State, steps: seq<Step>)
    requires JobOk(job, names) && Inv(job, names, before, s) && ValidRun(job, s, steps)
    ensures |steps| <= Rank(job, s)
    decreases |steps|
  {
    if steps != [] {
      StepKeepsInv(job, names, before, s, steps[0]);
      RankBoundsRun(job, names, before, Apply(job, s, steps[0]), steps[1..]);
    }
  }

  lemma CanMove(job: Job, names: seq<string>, before: Nodes, s: State)
    requires JobOk(job, names) && Inv(job, names, before, s) && !s.runner.caller.Finished?
    ensures exists step :: Enabled(job, s, step)
  {
    BatchRunner.CanMove(s.runner);
    var next := BatchRunner.NextStep(s.runner);
    if next.Return? && AtDesk(job, s, next.w) {
      assert Enabled(job, s, Work(next.w));
    } else {
      assert Enabled(job, s, Coordinate(next));
    }
  }

  /** No schedule gets stuck before the end or goes on for ever: eleven steps a batch
      and four a node are enough for any of them. */
  lemma EveryScheduleEnds(job: Job, names: seq<string>, nodes: Nodes, steps: seq<Step>)
    requires JobOk(job, names)
    requires ValidRun(job, Init(job, nodes), steps)
    ensures |steps| <= 11 * BatchCount(|names|) + 4 * |names| + 4
    ensures !Run(job, Init(job, nodes), steps).runner.caller.Finished? ==>
      exists step :: Enabled(job, Run(job, Init(job, nodes), steps), step)
  {
    InitInv(job, names, nodes);
    InitRank(job, names, nodes);
    RankBoundsRun(job, names, nodes, Init(job, nodes), steps);
    RunInv(job, names, nodes, Init(job, nodes), steps);
    if !Run(job, Init(job, nodes), steps).runner.caller.Finished? {
      CanMove(job, names, nodes, Run(job, Init(job, nodes), steps));
    }
  }

  lemma InitRank(job: Job, names: seq<string>, nodes: Nodes)
    requires JobOk(job, names)
    ensures Rank(job, Init(job, nodes)) <= 11 * BatchCount(|names|) + 4 * |names| + 4
  {
    PartitionUnique(names, job.batches);
    FreshDesks(job.batches, Init(job, nodes).desks);
    BatchRunner.UnbornWork(Init(job, nodes).runner.workers);
  }

  // ----- the runner at work -----

  /** Whoever decides which goroutine moves next. */
  type Scheduler = (Job, State) -> Step

  /** A scheduler may choose as it likes among the steps that can be taken. */
  ghost predicate Picks(pick: Scheduler) {
    forall job, s :: (exists step :: Enabled(job, s, step)) ==> Enabled(job, s, pick(job, s))
  }

  lemma StepKeepsInv(job: Job, names: seq<string>, before: Nodes, s: State, step: Step)
    requires JobOk(job, names) && Inv(job, names, before, s) && Enabled(job, s, step)
    ensures Inv(job, names, before, Apply(job, s, step))
    ensures Rank(job, Apply(job, s, step)) < Rank(job, s)
  {
    match step
    case Coordinate(inner) =>
      CoordinateInv(job, names, before, s, inner);
      BatchRunner.StepLowersRank(s.runner, inner);
    case Work(w) =>
      WorkInv(job, names, before, s, w);
      WorkLowersRank(job, s, w);
  }

  /** The batch runner over a node pass, from call to return, whatever the scheduler does. */
  method Execute(job: Job, ghost names: seq<string>, nodes: Nodes, pick: Scheduler) returns (err: GoError, after: Nodes)
    requires JobOk(job, names) && Picks(pick)
    ensures err == None && after == AfterPass(job.program, nodes, NameSet(names), job.failing)
  {
    var s := Init(job, nodes);
    InitInv(job, names, nodes);
    while !s.runner.caller.Finished?
      invariant Inv(job, names, nodes, s)
      decreases Rank(job, s)
    {
      CanMove(job, names, nodes, s);
      var step := pick(job, s);
      StepKeepsInv(job, names, nodes, s, step);
      s := Apply(job, s, step);
    }
    FinishedIsPass(job, names, nodes, s);
    return s.runner.caller.result, s.nodes;
  }
}
