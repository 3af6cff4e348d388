/** The batch runner as a transition system: the spawning caller, one worker per
    batch, the semaphore, the error channel, the wait group and the context.

    A step is one shared-memory action of one goroutine, so a sequence of steps is
    an interleaving.  `calls` and `returned` record what `processFn` was asked and
    what it answered; no step reads them. */
module BatchRunner {
  import opened Sequences
  import opened Batches

  /** Where a worker stands.  `sent` is the error it has put on the channel. */
  datatype Worker =
    | Unborn
    | Entering                              // about to look at ctx.Err()
    | Acquiring                             // select: semaphore or ctx.Done()
    | Checking                              // holds a token, last look at the context
    | Running                               // inside processFn
    | Aborting(token: bool)                 // errChan <- ctx.Err()
    | Offering(err: GoError)                // select: errChan <- err, or drop it
    | Releasing(sent: GoError)              // deferred <-semaphore
    | Leaving(sent: GoError)                // deferred wg.Done()
    | Gone(sent: GoError)

  datatype Caller =
    | Adding(i: nat)                        // wg.Add(1)
    | Launching(i: nat)                     // go func(...)
    | Waiting
    | Closing
    | Draining
    | Finished(result: GoError)

  datatype State = State(
    caller: Caller,
    workers: seq<Worker>,
    tokens: nat,
    wg: nat,
    errs: seq<GoError>,
    closed: bool,
    cancelled: bool,
    calls: seq<nat>,
    returned: map<nat, GoError>)

  datatype Step =
    | Cancel                                // the context is cancelled from outside
    | Call                                  // the caller moves
    | Proceed(w: nat)                       // worker `w` moves
    | Abandon(w: nat)                       // the select at the semaphore takes ctx.Done()
    | Return(w: nat, result: GoError)       // processFn returns

  function Init(batches: nat, cancelled: bool): State {
    var caller := if batches == 0 then Finished(None) else Adding(0);
    State(caller, seq(batches, _ => Unborn), 0, 0, [], false, cancelled, [], map[])
  }

  function ContextErr(s: State): GoError {
    if s.cancelled then Some(ContextCancelled) else None
  }

  predicate Enabled(s: State, step: Step) {
    match step
    case Cancel => !s.cancelled
    case Call => (
      match s.caller
      case Adding(_) => true
      case Launching(i) => i < |s.workers|
      case Waiting => s.wg == 0
      case Closing => !s.closed
      case Draining => s.errs != [] || s.closed
      case Finished(_) => false)
    case Proceed(w) => w < |s.workers| && (
      match s.workers[w]
      case Entering => true
      case Acquiring => s.tokens < MAX_CONCURRENT_BATCHES
      case Checking => true
      case Aborting(_) => CanSend(s)
      case Offering(_) => !s.closed
      case Releasing(_) => s.tokens > 0
      case Leaving(_) => s.wg > 0
      case _ => false)
    case Abandon(w) => w < |s.workers| && s.workers[w] == Acquiring && s.cancelled
    case Return(w, _) => w < |s.workers| && s.workers[w] == Running
  }

  /** A plain send goes through: the channel is open and has room. */
  predicate CanSend(s: State) {
    !s.closed && |s.errs| < |s.workers|
  }

  function Apply(s: State, step: Step): State
    requires Enabled(s, step)
  {
    match step
    case Cancel => s.(cancelled := true)
    case Call => ApplyCall(s)
    case Proceed(w) => ApplyProceed(s, w)
    case Abandon(w) => s.(workers := s.workers[w := Aborting(false)])
    case Return(w, result) =>
      s.(workers := s.workers[w := if result.Some? then Offering(result) else Releasing(None)],
         returned := s.returned[w := result])
  }

  function ApplyCall(s: State): State
    requires Enabled(s, Call)
  {
    match s.caller
    case Adding(i) => s.(wg := s.wg + 1, caller := Launching(i))
    case Launching(i) =>
      s.(workers := s.workers[i := Entering], caller := if i + 1 < |s.workers| then Adding(i + 1) else Waiting)
    case Waiting => s.(caller := Closing)
    case Closing => s.(closed := true, caller := Draining)
    case Draining =>
      if s.errs == [] then s.(caller := Finished(None))
      else if s.errs[0].Some? then s.(errs := s.errs[1..], caller := Finished(s.errs[0]))
      else s.(errs := s.errs[1..])
  }

  function ApplyProceed(s: State, w: nat): State
    requires Enabled(s, Proceed(w))
  {
    match s.workers[w]
    case Entering => s.(workers := s.workers[w := if s.cancelled then Aborting(false) else Acquiring])
    case Acquiring => s.(workers := s.workers[w := Checking], tokens := s.tokens + 1)
    case Checking =>
      if s.cancelled then s.(workers := s.workers[w := Aborting(true)])
      else s.(workers := s.workers[w := Running], calls := s.calls + [w])
    case Aborting(token) =>
      s.(errs := s.errs + [ContextErr(s)],
         workers := s.workers[w := if token then Releasing(ContextErr(s)) else Leaving(ContextErr(s))])
    case Offering(err) =>
      if |s.errs| < |s.workers| then s.(errs := s.errs + [err], workers := s.workers[w := Releasing(err)])
      else s.(workers := s.workers[w := Releasing(None)])
    case Releasing(sent) => s.(tokens := s.tokens - 1, workers := s.workers[w := Leaving(sent)])
    case Leaving(sent) => s.(wg := s.wg - 1, workers := s.workers[w := Gone(sent)])
  }

  ghost predicate ValidRun(s: State, steps: seq<Step>)
    decreases |steps|
  {
    steps == [] || (Enabled(s, steps[0]) && ValidRun(Apply(s, steps[0]), steps[1..]))
  }

  ghost function Run(s: State, steps: seq<Step>): State
    requires ValidRun(s, steps)
    decreases |steps|
  {
    if steps == [] then s else Run(Apply(s, steps[0]), steps[1..])
  }

  // ----- the invariant -----

  predicate Holding(w: Worker) {
    w.Checking? || w.Running? || w.Offering? || w.Releasing? || (w.Aborting? && w.token)
  }

  predicate Live(w: Worker) {
    !w.Unborn? && !w.Gone?
  }

  predicate HasSent(w: Worker) {
    (w.Releasing? || w.Leaving? || w.Gone?) && w.sent.Some?
  }

  function Spawned(s: State): nat {
    match s.caller
    case Adding(i) => i
    case Launching(i) => i
    case _ => |s.workers|
  }

  /** The wait group has reached zero and the caller has moved on. */
  predicate Joined(s: State) {
    s.caller.Closing? || s.caller.Draining? || s.caller.Finished?
  }

  /** What the history says about worker `i` when it stands at `w`. */
  ghost predicate HistoryOk(w: Worker, i: nat, calls: seq<nat>, returned: map<nat, GoError>, cancelled: bool) {
    match w
    case Running => i in calls && i !in returned
    case Offering(err) => err.Some? && i in calls && i in returned && returned[i] == err
    case Releasing(sent) => SettledOk(i, sent, calls, returned, cancelled)
    case Leaving(sent) => SettledOk(i, sent, calls, returned, cancelled)
    case Gone(sent) => SettledOk(i, sent, calls, returned, cancelled)
    case Aborting(_) => cancelled && i !in calls && i !in returned
    case _ => i !in calls && i !in returned
  }

  /** Either `processFn` answered `sent`, or the worker gave up on a cancelled context. */
  ghost predicate SettledOk(i: nat, sent: GoError, calls: seq<nat>, returned: map<nat, GoError>, cancelled: bool) {
    if i in calls then i in returned && returned[i] == sent
    else i !in returned && cancelled && sent == Some(ContextCancelled)
  }

  ghost predicate Counters(s: State) {
    && s.tokens == Count(s.workers, Holding) <= MAX_CONCURRENT_BATCHES
    && s.wg == Count(s.workers, Live) + (if s.caller.Launching? then 1 else 0)
    && (!s.caller.Finished? ==> |s.errs| == Count(s.workers, HasSent))
  }

  ghost predicate CallerOk(s: State) {
    && (s.caller.Adding? ==> s.caller.i < |s.workers|)
    && (s.caller.Launching? ==> s.caller.i < |s.workers|)
    && (forall i :: 0 <= i < |s.workers| ==> (s.workers[i].Unborn? <==> i >= Spawned(s)))
    && (Joined(s) ==> forall i :: 0 <= i < |s.workers| ==> s.workers[i].Gone?)
    && (s.closed ==> s.caller.Draining? || s.caller.Finished?)
    && (s.caller.Draining? ==> s.closed)
  }

  ghost predicate ErrorsOk(s: State) {
    && (forall e :: e in s.errs ==> SentBySome(s, e))
    && (s.caller.Finished? && s.caller.result.Some? ==> SentBySome(s, s.caller.result))
    && (s.caller.Finished? && s.caller.result.None? ==> Count(s.workers, HasSent) == 0)
  }

  /** Some worker put `e`, a non-nil error, on the channel. */
  ghost predicate SentBySome(s: State, e: GoError) {
    exists i :: 0 <= i < |s.workers| && HasSent(s.workers[i]) && s.workers[i].sent == e
  }

  ghost predicate HistoriesOk(s: State) {
    && (forall i :: 0 <= i < |s.workers| ==> HistoryOk(s.workers[i], i, s.calls, s.returned, s.cancelled))
    && NoDuplicates(s.calls)
    && (forall k :: 0 <= k < |s.calls| ==> s.calls[k] < |s.workers|)
  }

  ghost predicate Inv(s: State) {
    Counters(s) && CallerOk(s) && ErrorsOk(s) && HistoriesOk(s)
  }

  lemma InitInv(batches: nat, cancelled: bool)
    ensures Inv(Init(batches, cancelled))
  {
    var s := Init(batches, cancelled);
    CountZero(s.workers, Holding);
    CountZero(s.workers, Live);
    CountZero(s.workers, HasSent);
  }

  /** What replacing one worker does to the three counts. */
  lemma MoveWorker(s: State, i: nat, w: Worker)
    requires i < |s.workers|
    ensures Count(s.workers[i := w], Holding) + (if Holding(s.workers[i]) then 1 else 0) ==
      Count(s.workers, Holding) + (if Holding(w) then 1 else 0)
    ensures Count(s.workers[i := w], Live) + (if Live(s.workers[i]) then 1 else 0) ==
      Count(s.workers, Live) + (if Live(w) then 1 else 0)
    ensures Count(s.workers[i := w], HasSent) + (if HasSent(s.workers[i]) then 1 else 0) ==
      Count(s.workers, HasSent) + (if HasSent(w) then 1 else 0)
  {
    CountUpdate(s.workers, i, w, Holding);
    CountUpdate(s.workers, i, w, Live);
    CountUpdate(s.workers, i, w, HasSent);
  }

  /** A live worker keeps the wait group above zero, so nobody has moved past it. */
  lemma LiveWorker(s: State, i: nat)
    requires Inv(s) && i < |s.workers| && Live(s.workers[i])
    ensures s.wg > 0 && !Joined(s) && !s.closed
    ensures !HasSent(s.workers[i]) ==> |s.errs| < |s.workers|
    ensures Holding(s.workers[i]) ==> s.tokens > 0
  {
    CountZero(s.workers, Live);
    CountZero(s.workers, Holding);
    if !HasSent(s.workers[i]) {
      CountFull(s.workers, HasSent, i);
    }
  }

  /** Errors stay attributed to their senders while worker `i` moves on without unsending. */
  lemma KeepSent(s: State, t: State, i: nat)
    requires |t.workers| == |s.workers|
    requires forall j :: 0 <= j < |s.workers| && j != i ==> t.workers[j] == s.workers[j]
    requires i < |s.workers| && HasSent(s.workers[i]) ==>
      HasSent(t.workers[i]) && t.workers[i].sent == s.workers[i].sent
    ensures forall e :: SentBySome(s, e) ==> SentBySome(t, e)
  {
    forall e | SentBySome(s, e)
      ensures SentBySome(t, e)
    {
      var j :| 0 <= j < |s.workers| && HasSent(s.workers[j]) && s.workers[j].sent == e;
      assert HasSent(t.workers[j]) && t.workers[j].sent == e;
    }
  }

  lemma LaunchInv(s: State)
    requires Inv(s) && Enabled(s, Call) && s.caller.Launching?
    ensures Inv(ApplyCall(s))
  {
    MoveWorker(s, s.caller.i, Entering);
    KeepSent(s, ApplyCall(s), s.caller.i);
  }

  lemma JoinInv(s: State)
    requires Inv(s) && Enabled(s, Call) && s.caller.Waiting?
    ensures Inv(ApplyCall(s))
  {
    CountZero(s.workers, Live);
    KeepSent(s, ApplyCall(s), 0);
  }

  lemma DrainInv(s: State)
    requires Inv(s) && Enabled(s, Call) && s.caller.Draining?
    ensures Inv(ApplyCall(s))
  {
    var t := ApplyCall(s);
    KeepSent(s, t, 0);
    if s.errs != [] {
      assert SentBySome(s, s.errs[0]);
      assert s.errs[0].Some?;
      assert forall e :: e in t.errs ==> e in s.errs;
    }
    assert HistoriesOk(t);
    assert Counters(t);
  }

  lemma CallInv(s: State)
    requires Inv(s) && Enabled(s, Call)
    ensures Inv(ApplyCall(s))
  {
    if s.caller.Launching? {
      LaunchInv(s);
    } else if s.caller.Waiting? {
      JoinInv(s);
    } else if s.caller.Draining? {
      DrainInv(s);
    } else {
      KeepSent(s, ApplyCall(s), 0);
    }
  }

  lemma ProceedTokens(s: State, w: nat)
    requires Inv(s) && Enabled(s, Proceed(w))
    ensures var t := ApplyProceed(s, w);
      && t.tokens == Count(t.workers, Holding) <= MAX_CONCURRENT_BATCHES
      && t.wg == Count(t.workers, Live) + (if t.caller.Launching? then 1 else 0)
  {
    LiveWorker(s, w);
    MoveWorker(s, w, ApplyProceed(s, w).workers[w]);
  }

  lemma ProceedCounters(s: State, w: nat)
    requires Inv(s) && Enabled(s, Proceed(w))
    ensures Counters(ApplyProceed(s, w))
  {
    LiveWorker(s, w);
    MoveWorker(s, w, ApplyProceed(s, w).workers[w]);
    ProceedTokens(s, w);
  }

  lemma ProceedCaller(s: State, w: nat)
    requires Inv(s) && Enabled(s, Proceed(w))
    ensures CallerOk(ApplyProceed(s, w))
  {
    LiveWorker(s, w);
    assert !ApplyProceed(s, w).workers[w].Unborn?;
  }

  lemma ProceedErrors(s: State, w: nat)
    requires Inv(s) && Enabled(s, Proceed(w))
    ensures ErrorsOk(ApplyProceed(s, w))
  {
    var t := ApplyProceed(s, w);
    LiveWorker(s, w);
    KeepSent(s, t, w);
    if t.errs != s.errs {
      assert t.errs == s.errs + [t.workers[w].sent];
      assert SentBySome(t, t.workers[w].sent);
    }
  }

  lemma ProceedHistories(s: State, w: nat)
    requires Inv(s) && Enabled(s, Proceed(w))
    ensures HistoriesOk(ApplyProceed(s, w))
  {
    var t := ApplyProceed(s, w);
    LiveWorker(s, w);
    assert HistoryOk(s.workers[w], w, s.calls, s.returned, s.cancelled);
    if t.calls != s.calls {
      assert t.calls == s.calls + [w];
    }
  }

  lemma AbandonInv(s: State, w: nat)
    requires Inv(s) && Enabled(s, Abandon(w))
    ensures Inv(Apply(s, Abandon(w)))
  {
    LiveWorker(s, w);
    MoveWorker(s, w, Aborting(false));
    KeepSent(s, Apply(s, Abandon(w)), w);
  }

  lemma ReturnInv(s: State, w: nat, result: GoError)
    requires Inv(s) && Enabled(s, Return(w, result))
    ensures Inv(Apply(s, Return(w, result)))
  {
    var t := Apply(s, Return(w, result));
    LiveWorker(s, w);
    MoveWorker(s, w, t.workers[w]);
    KeepSent(s, t, w);
    assert HistoryOk(s.workers[w], w, s.calls, s.returned, s.cancelled);
  }

  lemma StepInv(s: State, step: Step)
    requires Inv(s) && Enabled(s, step)
    ensures Inv(Apply(s, step))
  {
    match step
    case Cancel => KeepSent(s, Apply(s, step), 0);
    case Call => CallInv(s);
    case Proceed(w) =>
      ProceedCounters(s, w);
      ProceedCaller(s, w);
      ProceedErrors(s, w);
      ProceedHistories(s, w);
    case Abandon(w) => AbandonInv(s, w);
    case Return(w, result) => ReturnInv(s, w, result);
  }

  lemma {:induction false} RunInv(s: State, steps: seq<Step>)
    requires Inv(s) && ValidRun(s, steps)
    ensures Inv(Run(s, steps)) && |Run(s, steps).workers| == |s.workers|
    decreases |steps|
  {
    if steps != [] {
      StepInv(s, steps[0]);
      RunInv(Apply(s, steps[0]), steps[1..]);
    }
  }

  // ----- what every interleaving guarantees -----

  predicate IsRunning(w: Worker) { w.Running? }

  /** The semaphore: tokens taken are exactly the workers between acquire and
      release, so `processFn` is never inside more than twenty calls at once, and
      every token is back once the wait group is at zero. */
  lemma ConcurrencyBound(batches: nat, cancelled: bool, steps: seq<Step>)
    requires ValidRun(Init(batches, cancelled), steps)
    ensures var s := Run(Init(batches, cancelled), steps);
      && Count(s.workers, IsRunning) <= s.tokens == Count(s.workers, Holding) <= 20
      && (s.wg == 0 ==> s.tokens == 0)
  {
    InitInv(batches, cancelled);
    RunInv(Init(batches, cancelled), steps);
    var s := Run(Init(batches, cancelled), steps);
    CountMonotone(s.workers, IsRunning, Holding);
    CountMonotone(s.workers, Holding, Live);
  }

  /** The error channel: whoever is about to send finds it open and with room, so
      no plain send blocks, the full-channel branch is never taken and nothing is
      sent after close; a worker sends at most once, and never nil. */
  lemma SendsNeverBlock(batches: nat, cancelled: bool, steps: seq<Step>)
    requires ValidRun(Init(batches, cancelled), steps)
    ensures var s := Run(Init(batches, cancelled), steps);
      && |s.workers| == batches
      && (forall i :: 0 <= i < batches && (s.workers[i].Aborting? || s.workers[i].Offering?) ==> CanSend(s))
      && (!s.caller.Finished? ==> |s.errs| == Count(s.workers, HasSent))
      && (forall e :: e in s.errs ==> e.Some?)
  {
    InitInv(batches, cancelled);
    RunInv(Init(batches, cancelled), steps);
    var s := Run(Init(batches, cancelled), steps);
    forall i | 0 <= i < batches && (s.workers[i].Aborting? || s.workers[i].Offering?)
      ensures CanSend(s)
    {
      LiveWorker(s, i);
    }
    forall e | e in s.errs
      ensures e.Some?
    {
      assert SentBySome(s, e);
    }
  }

  /** A step somebody can take: `processFn` is assumed to return, nobody waits for a cancellation. */
  function NextStep(s: State): Step {
    if !s.caller.Waiting? || s.wg == 0 then Call
    else if exists i :: 0 <= i < |s.workers| && Live(s.workers[i]) && !s.workers[i].Acquiring? then
      var i := FirstBusy(s.workers, 0);
      if s.workers[i].Running? then Return(i, None) else Proceed(i)
    else Proceed(FirstLive(s.workers, 0))
  }

  function FirstBusy(workers: seq<Worker>, from: nat): (i: nat)
    requires exists i :: from <= i < |workers| && Live(workers[i]) && !workers[i].Acquiring?
    ensures i < |workers| && Live(workers[i]) && !workers[i].Acquiring?
    decreases |workers| - from
  {
    if Live(workers[from]) && !workers[from].Acquiring? then from else FirstBusy(workers, from + 1)
  }

  function FirstLive(workers: seq<Worker>, from: nat): (i: nat)
    requires from <= |workers|
    ensures (exists i :: from <= i < |workers| && Live(workers[i])) ==> i < |workers| && Live(workers[i])
    decreases |workers| - from
  {
    if from == |workers| || Live(workers[from]) then from else FirstLive(workers, from + 1)
  }

  lemma CanMove(s: State)
    requires Inv(s) && !s.caller.Finished?
    ensures Enabled(s, NextStep(s))
  {
    if s.caller.Waiting? && s.wg > 0 {
      CountZero(s.workers, Live);
      if exists j :: 0 <= j < |s.workers| && Live(s.workers[j]) && !s.workers[j].Acquiring? {
        LiveWorker(s, FirstBusy(s.workers, 0));
      } else {
        CountZero(s.workers, Holding);
      }
    }
  }

  /** Progress: until the caller has returned, some goroutine can move. */
  lemma NeverStuck(batches: nat, cancelled: bool, steps: seq<Step>)
    requires ValidRun(Init(batches, cancelled), steps)
    requires !Run(Init(batches, cancelled), steps).caller.Finished?
    ensures exists step :: step != Cancel && Enabled(Run(Init(batches, cancelled), steps), step)
  {
    InitInv(batches, cancelled);
    RunInv(Init(batches, cancelled), steps);
    CanMove(Run(Init(batches, cancelled), steps));
  }

  /** The remaining work of a worker; it outweighs the error it may still queue. */
  function Work(w: Worker): nat {
    match w
    case Unborn => 9
    case Entering => 8
    case Acquiring => 7
    case Checking => 6
    case Running => 5
    case Aborting(_) => 4
    case Offering(_) => 4
    case Releasing(_) => 2
    case Leaving(_) => 1
    case Gone(_) => 0
  }

  function CallerWork(s: State): nat {
    match s.caller
    case Adding(i) => 2 * (if i <= |s.workers| then |s.workers| - i else 0) + 3
    case Launching(i) => 2 * (if i <= |s.workers| then |s.workers| - i else 0) + 2
    case Waiting => 3
    case Closing => 2
    case Draining => 1
    case Finished(_) => 0
  }

  function Rank(s: State): nat {
    Weigh(s.workers, Work) + |s.errs| + CallerWork(s) + (if s.cancelled then 0 else 1)
  }

  lemma ProceedLowersRank(s: State, w: nat)
    requires Enabled(s, Proceed(w))
    ensures Rank(ApplyProceed(s, w)) < Rank(s)
  {
    var t := ApplyProceed(s, w);
    WeighUpdate(s.workers, w, t.workers[w], Work);
    assert CallerWork(t) == CallerWork(s);
    assert Work(t.workers[w]) + |t.errs| < Work(s.workers[w]) + |s.errs|;
  }

  lemma CallLowersRank(s: State)
    requires CallerOk(s) && Enabled(s, Call)
    ensures Rank(ApplyCall(s)) < Rank(s)
  {
    if s.caller.Launching? {
      WeighUpdate(s.workers, s.caller.i, Entering, Work);
    }
  }

  lemma StepLowersRank(s: State, step: Step)
    requires CallerOk(s) && Enabled(s, step)
    ensures Rank(Apply(s, step)) < Rank(s)
  {
    match step
    case Cancel =>
    case Call => CallLowersRank(s);
    case Proceed(w) => ProceedLowersRank(s, w);
    case Abandon(w) => WeighUpdate(s.workers, w, Apply(s, step).workers[w], Work);
    case Return(w, _) => WeighUpdate(s.workers, w, Apply(s, step).workers[w], Work);
  }

  lemma {:induction false} RankBoundsRun(s: State, steps: seq<Step>)
    requires Inv(s) && ValidRun(s, steps)
    ensures |steps| + Rank(Run(s, steps)) <= Rank(s)
    decreases |steps|
  {
    if steps != [] {
      StepInv(s, steps[0]);
      StepLowersRank(s, steps[0]);
      RankBoundsRun(Apply(s, steps[0]), steps[1..]);
    }
  }

  lemma {:induction false} UnbornWork(workers: seq<Worker>)
    requires forall i :: 0 <= i < |workers| ==> workers[i] == Unborn
    ensures Weigh(workers, Work) == 9 * |workers|
  {
    if workers != [] {
      UnbornWork(workers[1..]);
    }
  }

  /** Termination, for every interleaving: a run is at most linear in the number of
      batches; by `NeverStuck` one that can go no further has returned. */
  lemma EveryRunEnds(batches: nat, cancelled: bool, steps: seq<Step>)
    requires ValidRun(Init(batches, cancelled), steps)
    ensures |steps| <= 11 * batches + 4
  {
    InitInv(batches, cancelled);
    UnbornWork(Init(batches, cancelled).workers);
    RankBoundsRun(Init(batches, cancelled), steps);
  }

  /** Every batch was handed to `processFn` exactly once and every answer was nil. */
  ghost predicate AllSucceeded(s: State, batches: nat) {
    Enumerates(s.calls, batches) && forall i :: 0 <= i < batches ==> i in s.returned && s.returned[i].None?
  }

  /** Some worker really produced `e`: its `processFn` answered it, or it gave up on a cancelled context. */
  ghost predicate Produced(s: State, batches: nat, e: GoError) {
    exists i :: 0 <= i < batches && SettledOk(i, e, s.calls, s.returned, s.cancelled)
  }

  lemma NilResult(s: State)
    requires Inv(s) && s.caller == Finished(None)
    ensures AllSucceeded(s, |s.workers|)
  {
    CountZero(s.workers, HasSent);
    forall i | 0 <= i < |s.workers|
      ensures i in s.calls && i in s.returned && s.returned[i].None?
    {
      assert s.workers[i].Gone? && !HasSent(s.workers[i]);
    }
  }

  lemma ErrorResult(s: State)
    requires Inv(s) && s.caller.Finished? && s.caller.result.Some?
    ensures Produced(s, |s.workers|, s.caller.result) && !AllSucceeded(s, |s.workers|)
  {
    var i :| 0 <= i < |s.workers| && HasSent(s.workers[i]) && s.workers[i].sent == s.caller.result;
    assert s.workers[i].Gone?;
    assert SettledOk(i, s.caller.result, s.calls, s.returned, s.cancelled);
    assert i in s.returned && s.returned[i].None? ==> i !in s.calls;
  }

  /** What the returned error means. */
  lemma ReturnValue(batches: nat, cancelled: bool, steps: seq<Step>)
    requires ValidRun(Init(batches, cancelled), steps)
    requires Run(Init(batches, cancelled), steps).caller.Finished?
    ensures var s := Run(Init(batches, cancelled), steps);
      && (s.caller.result.None? <==> AllSucceeded(s, batches))
      && (s.caller.result.Some? ==> Produced(s, batches, s.caller.result))
  {
    InitInv(batches, cancelled);
    RunInv(Init(batches, cancelled), steps);
    var s := Run(Init(batches, cancelled), steps);
    if s.caller.result.None? {
      NilResult(s);
    } else {
      ErrorResult(s);
    }
  }

  /** A nil return means every item was processed exactly once: the batches handed
      out, in whatever order, contain each item as often as the input does. */
  lemma NilMeansEveryItemOnce<T>(items: seq<T>, batches: seq<seq<T>>, cancelled: bool, steps: seq<Step>)
    requires IsPartition(items, batches)
    requires ValidRun(Init(|batches|, cancelled), steps)
    requires Run(Init(|batches|, cancelled), steps).caller == Finished(None)
    ensures var s := Run(Init(|batches|, cancelled), steps);
      && (forall k :: 0 <= k < |s.calls| ==> s.calls[k] < |batches|)
      && multiset(Flatten(HandedOut(batches, s.calls))) == multiset(items)
  {
    ReturnValue(|batches|, cancelled, steps);
    HandedOutAll(batches, Run(Init(|batches|, cancelled), steps).calls);
  }

  function HandedOut<T>(batches: seq<seq<T>>, calls: seq<nat>): (r: seq<seq<T>>)
    requires forall k :: 0 <= k < |calls| ==> calls[k] < |batches|
  {
    seq(|calls|, k requires 0 <= k < |calls| => batches[calls[k]])
  }

  lemma {:induction false} FlattenSplit<T>(xs: seq<seq<T>>, k: nat)
    requires k < |xs|
    ensures multiset(Flatten(xs)) == multiset(Flatten(xs[..k] + xs[k + 1..])) + multiset(xs[k])
  {
    if k == 0 {
      assert xs[..k] + xs[k + 1..] == xs[1..];
    } else {
      FlattenSplit(xs[1..], k - 1);
      assert (xs[..k] + xs[k + 1..])[1..] == xs[1..][..k - 1] + xs[1..][k..];
      assert xs[1..][k - 1] == xs[k];
    }
  }

  lemma {:induction false} HandedOutAll<T>(batches: seq<seq<T>>, calls: seq<nat>)
    requires Enumerates(calls, |batches|)
    ensures multiset(Flatten(HandedOut(batches, calls))) == multiset(Flatten(batches))
    decreases |batches|
  {
    EnumerationLength(calls, |batches|);
    if batches != [] {
      var n := |batches| - 1;
      var k := DropLargest(calls, |batches|);
      var rest := calls[..k] + calls[k + 1..];
      var out := HandedOut(batches, calls);
      HandedOutAll(batches[..n], rest);
      FlattenSplit(out, k);
      HandedOutFewer(batches, calls, k);
      FlattenAppend(batches[..n], batches[n]);
      assert batches[..n] + [batches[n]] == batches;
    }
  }

  /** Leaving out one call leaves out one batch. */
  lemma HandedOutFewer<T>(batches: seq<seq<T>>, calls: seq<nat>, k: nat)
    requires batches != [] && k < |calls| && forall i :: 0 <= i < |calls| ==> calls[i] < |batches|
    requires forall i :: 0 <= i < |calls| && i != k ==> calls[i] < |batches| - 1
    ensures var n, rest, out := |batches| - 1, calls[..k] + calls[k + 1..], HandedOut(batches, calls);
      && (forall i :: 0 <= i < |rest| ==> rest[i] < n)
      && out[..k] + out[k + 1..] == HandedOut(batches[..n], rest)
  {
    var rest := calls[..k] + calls[k + 1..];
    assert forall i :: 0 <= i < |rest| ==> rest[i] == if i < k then calls[i] else calls[i + 1];
  }

  /** Once the channel is closed nothing more comes in, and the caller returns the error
      at its head, which is what `Batches.Drain` picks out of the queue. */
  lemma {:induction false} DrainReturnsFirst(s: State, steps: seq<Step>)
    requires Inv(s) && s.caller.Draining? && ValidRun(s, steps) && Run(s, steps).caller.Finished?
    ensures Run(s, steps).caller.result == if s.errs == [] then None else s.errs[0]
    decreases |steps|
  {
    StepInv(s, steps[0]);
    var t := Apply(s, steps[0]);
    if steps[0].Cancel? {
      DrainReturnsFirst(t, steps[1..]);
    } else {
      assert steps[0].Call?;
      assert s.errs != [] ==> SentBySome(s, s.errs[0]);
      FinishedStays(t, steps[1..]);
    }
  }

  lemma {:induction false} FinishedStays(s: State, steps: seq<Step>)
    requires s.caller.Finished? && ValidRun(s, steps)
    ensures Run(s, steps).caller == s.caller
    decreases |steps|
  {
    if steps != [] {
      FinishedStays(Apply(s, steps[0]), steps[1..]);
    }
  }

  /** Once the context is cancelled no further batch is started. */
  lemma {:induction false} NoCallAfterCancel(s: State, steps: seq<Step>)
    requires ValidRun(s, steps) && s.cancelled
    ensures Run(s, steps).calls == s.calls && Run(s, steps).cancelled
    decreases |steps|
  {
    if steps != [] {
      NoCallAfterCancel(Apply(s, steps[0]), steps[1..]);
    }
  }

  /** Called with a cancelled context and something to do, the runner calls
      `processFn` never and returns the context's error. */
  lemma CancelledBeforeCall(batches: nat, steps: seq<Step>)
    requires batches > 0
    requires ValidRun(Init(batches, true), steps)
    ensures var s := Run(Init(batches, true), steps);
      && s.calls == []
      && (s.caller.Finished? ==> s.caller.result == Some(ContextCancelled))
  {
    NoCallAfterCancel(Init(batches, true), steps);
    var s := Run(Init(batches, true), steps);
    if s.caller.Finished? {
      ReturnValue(batches, true, steps);
      InitInv(batches, true);
      RunInv(Init(batches, true), steps);
      assert !Enumerates([], batches) by { assert 0 !in []; }
    }
  }
}
