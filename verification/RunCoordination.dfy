/**
 Run coordination (application/run_coordinator_v3.go and application/contract/run_coordination_v3.go).

 The ten-state run machine with its append-only sidecars and the runtime lifecycle it tracks:
 reachability, the successor proof used when a swap's answer is lost, and the stop path, which
 must not touch the runtime before its own stop plan is stored.
 */
module RunCoordination {
  import opened Wrappers
  import R = Reachability
  import A = OperationAttempt

  // --------------------------------------------------------------- states

  datatype RunState =
    | CreatePlanned | Pending | StartPlanned | Running | ClaimPlanned | ClaimAssociated
    | StopPlanned | Stopping | TerminalCleanup | TerminationClosed

  predicate Direct(from: RunState, to: RunState) {
    match from
    case CreatePlanned => to.Pending?
    case Pending => to.StartPlanned?
    case StartPlanned => to.Running?
    case Running => to.ClaimPlanned? || to.StopPlanned?
    case ClaimPlanned => to.ClaimAssociated?
    case ClaimAssociated => to.StopPlanned?
    case StopPlanned => to.Stopping? || to.TerminalCleanup? || to.TerminationClosed?
    case Stopping => to.TerminalCleanup? || to.TerminationClosed?
    case TerminalCleanup => to.TerminalCleanup? || to.TerminationClosed?
    case TerminationClosed => false
  }

  const CANDIDATES: seq<RunState> :=
    [Pending, StartPlanned, Running, ClaimPlanned, ClaimAssociated,
     StopPlanned, Stopping, TerminalCleanup, TerminationClosed]

  function Rank(s: RunState): nat {
    match s
    case CreatePlanned => 0 case Pending => 1 case StartPlanned => 2 case Running => 3 case ClaimPlanned => 4
    case ClaimAssociated => 5 case StopPlanned => 6 case Stopping => 7
    case TerminalCleanup => 8 case TerminationClosed => 9
  }

  lemma {:induction false} PathClimbs(p: seq<RunState>)
    requires R.IsPath(Direct, p)
    ensures Rank(p[0]) <= Rank(p[|p| - 1])
  {
    if |p| > 1 {
      assert R.IsPath(Direct, p[..|p| - 1]);
      PathClimbs(p[..|p| - 1]);
      assert Direct(p[|p| - 2], p[|p| - 1]);
    }
  }

  lemma {:induction false} RankReaches(from: RunState, to: RunState)
    requires Rank(from) <= Rank(to)
    ensures R.Reachable(Direct, from, to)
    decreases Rank(to) - Rank(from)
  {
    R.ReachableReflexive(Direct, from);
    if from != to {
      var n: RunState :| Rank(n) == Rank(from) + 1 && Direct(from, n);
      R.ReachableStep(Direct, from, from, n);
      RankReaches(n, to);
      R.ReachableTransitive(Direct, from, n, to);
    }
  }

  /** The states form one line with shortcuts: the search answers whether the rank does not fall. */
  lemma ReachableIffNotLower(from: RunState, to: RunState)
    ensures R.Reachable(Direct, from, to) <==> Rank(from) <= Rank(to)
  {
    if R.Reachable(Direct, from, to) {
      var p :| R.IsPath(Direct, p) && p[0] == from && p[|p| - 1] == to;
      PathClimbs(p);
    } else if Rank(from) <= Rank(to) {
      RankReaches(from, to);
    }
  }

  method IsReachable(from: RunState, to: RunState) returns (found: bool)
    ensures found <==> R.Reachable(Direct, from, to)
    ensures found <==> Rank(from) <= Rank(to)
  {
    found := R.Reaches(Direct, CANDIDATES, from, to);
    ReachableIffNotLower(from, to);
  }

  // ------------------------------------------------------------ lifecycle

  datatype Phase = PendingPrepared | PhaseRunning | PhaseStopping | PhaseCleanup | PhaseClosed

  function PhaseOrder(p: Phase): nat {
    match p
    case PendingPrepared => 0 case PhaseRunning => 1 case PhaseStopping => 2
    case PhaseCleanup => 3 case PhaseClosed => 4
  }

  datatype RunRecord = RunRecord(revision: nat, startedAt: Option<int>, claim: Option<nat>, endedAt: Option<int>,
                                 outcome: Option<nat>, rest: nat)

  datatype EffectIndex = EffectIndex(revision: nat, watermark: nat, segments: nat, effects: nat, frozen: bool,
                                     rest: nat)

  datatype Progress = Progress(decision: nat, revision: nat, unresolved: nat, rest: nat)

  /** identity stands for the plan, certification, run, session, scope and index identities together. */
  datatype Lifecycle = Lifecycle(identity: nat, phase: Phase, run: RunRecord, index: EffectIndex,
                                 closure: Option<nat>, decision: Option<nat>, report: Option<nat>,
                                 progress: Option<Progress>)

  predicate Kept<T(==)>(current: Option<T>, next: Option<T>) { current.Some? ==> next == current }

  predicate RunAdvance(a: RunRecord, b: RunRecord) {
    && a.revision <= b.revision && (a.revision == b.revision ==> a == b)
    && Kept(a.startedAt, b.startedAt) && Kept(a.claim, b.claim) && Kept(a.endedAt, b.endedAt)
    && Kept(a.outcome, b.outcome)
  }

  predicate IndexAdvance(a: EffectIndex, b: EffectIndex) {
    && a.revision <= b.revision && (a.revision == b.revision ==> a == b)
    && a.watermark <= b.watermark && a.segments <= b.segments && a.effects <= b.effects
    && (a.frozen ==> a == b)
  }

  predicate ProgressAdvance(a: Option<Progress>, b: Option<Progress>) {
    a.Some? ==>
      && b.Some? && a.value.decision == b.value.decision
      && a.value.revision <= b.value.revision && b.value.unresolved <= a.value.unresolved
      && (a.value.revision == b.value.revision ==> a == b)
  }

  predicate LifecycleAdvance(a: Lifecycle, b: Lifecycle) {
    && a.identity == b.identity && PhaseOrder(a.phase) <= PhaseOrder(b.phase)
    && RunAdvance(a.run, b.run) && IndexAdvance(a.index, b.index)
    && Kept(a.closure, b.closure) && Kept(a.decision, b.decision) && Kept(a.report, b.report)
    && ProgressAdvance(a.progress, b.progress)
  }

  // ---------------------------------------------------------------- facts

  datatype Slot = StartAttempt | StartOperation | StartRuntime | StartConfirmation | ClaimCandidate | ClaimResult

  datatype Fact = Fact(intent: nat, revision: nat, state: RunState, sidecars: map<Slot, nat>,
                       lifecycle: Option<Lifecycle>, at: int)

  const START: set<Slot> := {StartAttempt, StartOperation, StartRuntime}

  /** The lifecycle phase each state records. */
  function PhaseOf(s: RunState): Option<Phase> {
    match s
    case CreatePlanned => None
    case Pending => Some(PendingPrepared)
    case StartPlanned => Some(PendingPrepared)
    case Running => Some(PhaseRunning)
    case ClaimPlanned => Some(PhaseRunning)
    case ClaimAssociated => Some(PhaseRunning)
    case StopPlanned => Some(PhaseRunning)
    case Stopping => Some(PhaseStopping)
    case TerminalCleanup => Some(PhaseCleanup)
    case TerminationClosed => Some(PhaseClosed)
  }

  predicate ValidState(f: Fact) {
    var s, r := f.sidecars, Rank(f.state);
    && f.revision > 0
    && (match f.lifecycle case None => PhaseOf(f.state).None? case Some(l) => PhaseOf(f.state) == Some(l.phase))
    && (if r >= Rank(StartPlanned) then START <= s.Keys else s.Keys !! START)
    && (StartConfirmation in s <==> r >= Rank(Running))
    && (if r < Rank(ClaimPlanned) then ClaimCandidate !in s && ClaimResult !in s
        else if f.state.ClaimPlanned? then ClaimCandidate in s && ClaimResult !in s
        else if f.state.ClaimAssociated? then ClaimCandidate in s && ClaimResult in s
        else (ClaimCandidate in s <==> ClaimResult in s))
  }

  predicate LifecycleExtends(a: Option<Lifecycle>, b: Option<Lifecycle>) {
    a.Some? ==> b.Some? && LifecycleAdvance(a.value, b.value)
  }

  predicate Transition(current: Fact, next: Fact) {
    && ValidState(current) && ValidState(next)
    && next.intent == current.intent && next.revision == current.revision + 1 && current.at <= next.at
    && Direct(current.state, next.state)
    && current.sidecars.Items <= next.sidecars.Items
    && LifecycleExtends(current.lifecycle, next.lifecycle)
  }

  predicate Successor(expected: Fact, actual: Fact) {
    && actual.revision > expected.revision && actual.intent == expected.intent
    && Rank(expected.state) <= Rank(actual.state)
    && expected.sidecars.Items <= actual.sidecars.Items
    && LifecycleExtends(expected.lifecycle, actual.lifecycle)
  }

  /** The comparison as the source makes it, with the search deciding the states. */
  method IsSuccessor(expected: Fact, actual: Fact) returns (yes: bool)
    ensures yes <==> Successor(expected, actual)
    ensures yes ==> R.Reachable(Direct, expected.state, actual.state)
  {
    if actual.revision <= expected.revision || actual.intent != expected.intent {
      return false;
    }
    var reachable := IsReachable(expected.state, actual.state);
    return reachable && expected.sidecars.Items <= actual.sidecars.Items
           && LifecycleExtends(expected.lifecycle, actual.lifecycle);
  }

  /** Lifecycle advances compose, although each part compares revisions, presence and counts differently. */
  lemma LifecycleTransitive(a: Lifecycle, b: Lifecycle, c: Lifecycle)
    requires LifecycleAdvance(a, b) && LifecycleAdvance(b, c)
    ensures LifecycleAdvance(a, c)
  {
    assert RunAdvance(a.run, c.run);
    assert IndexAdvance(a.index, c.index);
  }

  lemma SuccessorTransitive(a: Fact, b: Fact, c: Fact)
    requires Successor(a, b) && Successor(b, c)
    ensures Successor(a, c)
  {
    if a.lifecycle.Some? {
      LifecycleTransitive(a.lifecycle.value, b.lifecycle.value, c.lifecycle.value);
    }
  }

  // -------------------------------------------------------- advance and recovery

  datatype Reply = Stored(fact: Fact) | Recoverable | Rejected

  /** advanceRunCoordinationV3 after the swap; a recovered fact need not be the one requested. */
  function Accept(current: Fact, next: Fact, reply: Reply, inspected: Option<Fact>): Option<Fact> {
    match reply
    case Stored(f) => if ValidState(f) && (f == next || Successor(next, f)) then Some(f) else None
    case Rejected => None
    case Recoverable =>
      if inspected.Some? && ValidState(inspected.value)
         && (Successor(current, inspected.value) || Successor(next, inspected.value))
      then inspected else None
  }

  ghost predicate History(h: seq<Fact>) {
    && h != [] && ValidState(h[0]) && h[0].state.CreatePlanned? && h[0].revision == 1
    && forall i :: 0 <= i < |h| - 1 ==> Transition(h[i], h[i + 1])
  }

  lemma {:induction false} HistoryExtends(h: seq<Fact>, i: nat, j: nat)
    requires History(h) && i < j < |h|
    ensures Successor(h[i], h[j])
  {
    assert Transition(h[j - 1], h[j]);
    if i < j - 1 {
      HistoryExtends(h, i, j - 1);
      SuccessorTransitive(h[i], h[j - 1], h[j]);
    }
  }

  lemma HistoryValid(h: seq<Fact>, j: nat)
    requires History(h) && j < |h|
    ensures ValidState(h[j])
  {
    if j > 0 {
      assert Transition(h[j - 1], h[j]);
    }
  }

  /** Whatever the store answers, what is accepted is valid and extends the fact held. */
  lemma AcceptedExtends(current: Fact, next: Fact, reply: Reply, inspected: Option<Fact>)
    requires Transition(current, next) && Accept(current, next, reply, inspected).Some?
    ensures var f := Accept(current, next, reply, inspected).value; ValidState(f) && Successor(current, f)
  {
    var f := Accept(current, next, reply, inspected).value;
    assert Successor(current, next);
    if Successor(next, f) {
      SuccessorTransitive(current, next, f);
    }
  }

  /** Against a real store, recovery accepts exactly the reads that show progress. */
  lemma RecoveryAcceptsProgress(h: seq<Fact>, i: nat, j: nat, next: Fact)
    requires History(h) && i <= j < |h| && Transition(h[i], next)
    ensures Accept(h[i], next, Recoverable, Some(h[j])).Some? <==> i < j
  {
    HistoryValid(h, j);
    if i < j {
      HistoryExtends(h, i, j);
    }
  }

  // ----------------------------------------------------------- stop and settle

  /** How one advance ends, as positions in the store's history: stored at, or read back at. */
  datatype End = StoredAt(i: nat) | ReadBackAt(i: nat) | NoAnswer

  /** What the runtime owners answer, and where the swaps of the three advances end. */
  datatype Oracle = Oracle(read: nat, now: int, plan: End,
                           stillRunning: bool, stopping: Option<Lifecycle>, stop: End,
                           stillStopping: bool, settling: Option<Lifecycle>, settle: End)

  function AdvanceAt(h: seq<Fact>, i: nat, next: Fact, end: End): Option<nat>
    requires i < |h|
  {
    match end
    case NoAnswer => None
    case StoredAt(j) => if i < j < |h| && Accept(h[i], next, Stored(h[j]), None).Some? then Some(j) else None
    case ReadBackAt(j) => if i <= j < |h| && Accept(h[i], next, Recoverable, Some(h[j])).Some? then Some(j) else None
  }

  function Next(f: Fact, s: RunState, l: Option<Lifecycle>, now: int): Fact {
    Fact(f.intent, f.revision + 1, s, f.sidecars, if l.Some? then l else f.lifecycle, now)
  }

  function StateForPhase(p: Phase): Option<RunState> {
    match p
    case PhaseStopping => Some(Stopping)
    case PhaseCleanup => Some(TerminalCleanup)
    case PhaseClosed => Some(TerminationClosed)
    case _ => None
  }

  lemma AdvanceMovesOn(h: seq<Fact>, i: nat, next: Fact, end: End)
    requires History(h) && i < |h| && next.revision == h[i].revision + 1
    ensures AdvanceAt(h, i, next, end).Some? ==> i < AdvanceAt(h, i, next, end).value < |h|
  {
    if AdvanceAt(h, i, next, end).Some? {
      var j := AdvanceAt(h, i, next, end).value;
      assert h[j].revision > h[i].revision;
    }
  }

  datatype RuntimeCall = BeginStop(stored: Fact) | Settle(stored: Fact)

  /**
   StopAndSettleRunV3.  A stop that succeeds returns a stored terminal fact that extends the one first
   read; and every runtime call it makes is made on a stored fact that already is stop-planned or
   stopping, so no stop is begun that a restarted coordinator would not find.
   */
  method StopAndSettle(h: seq<Fact>, o: Oracle) returns (result: Option<Fact>, calls: seq<RuntimeCall>)
    requires History(h) && o.read < |h|
    ensures result.Some? ==>
      && result.value in h && (result.value.state.TerminalCleanup? || result.value.state.TerminationClosed?)
      && (result.value == h[o.read] || Successor(h[o.read], result.value))
    ensures forall c :: c in calls ==>
        c.stored in h && (if c.BeginStop? then c.stored.state.StopPlanned? else c.stored.state.Stopping?)
    ensures |calls| <= 2
  {
    calls := [];
    var at := o.read;
    if h[at].state.Running? || h[at].state.ClaimAssociated? {
      var next := Next(h[at], StopPlanned, None, o.now);
      AdvanceMovesOn(h, at, next, o.plan);
      match AdvanceAt(h, at, next, o.plan)
      case None => return None, calls;
      case Some(j) => at := j;
    }
    if h[at].state.StopPlanned? {
      if o.stillRunning {
        calls := calls + [BeginStop(h[at])];
      }
      if o.stopping.None? || StateForPhase(o.stopping.value.phase).None? {
        return None, calls;
      }
      var next := Next(h[at], StateForPhase(o.stopping.value.phase).value, o.stopping, o.now);
      AdvanceMovesOn(h, at, next, o.stop);
      match AdvanceAt(h, at, next, o.stop)
      case None => return None, calls;
      case Some(j) => at := j;
    }
    if h[at].state.Stopping? {
      if o.stillStopping {
        calls := calls + [Settle(h[at])];
      }
      if o.settling.None? || StateForPhase(o.settling.value.phase).None? || o.settling.value.phase.PhaseStopping? {
        return None, calls;
      }
      var next := Next(h[at], StateForPhase(o.settling.value.phase).value, o.settling, o.now);
      AdvanceMovesOn(h, at, next, o.settle);
      match AdvanceAt(h, at, next, o.settle)
      case None => return None, calls;
      case Some(j) => at := j;
    }
    if !h[at].state.TerminalCleanup? && !h[at].state.TerminationClosed? {
      return None, calls;
    }
    if at > o.read {
      HistoryExtends(h, o.read, at);
    }
    return Some(h[at]), calls;
  }

  // ---------------------------------------------------------- confirming the start

  /** What a start sidecar holds of a settled attempt, of its operation, and of its runtime references. */
  datatype Digests = Digests(attempt: A.Fact -> nat, operation: A.Fact -> nat, refs: A.Fact -> nat)

  /** bound: the attempt is this run's and routed as planned; first and second are the two attempt reads. */
  datatype StartOracle = StartOracle(read: nat, first: nat, second: nat, bound: bool, applied: bool, now: int,
                                     plan: End,
                                     alreadyStarted: bool, running: Option<Lifecycle>, confirmation: nat, run: End)

  datatype StartEnd =
    | Started(fact: Fact) | NotReady | AttemptUnusable | NilDereference | Drifted | RuntimeRefused | NotStored

  datatype StartCall = StartCall(stored: Fact, attempt: A.Fact)

  /** The attempt may be confirmed: settled, and its references prepared, observed and applied. */
  predicate Confirmable(attempt: A.Fact) {
    attempt.stage.Settled? && A.ExecutionRefs(attempt) && A.Observation in attempt.sidecars
  }

  /** inspectSettledStartAttemptV3, which builds the references before it checks them; None is its success. */
  function StartAttemptError(attempt: A.Fact, o: StartOracle): Option<StartEnd> {
    if !o.bound || !attempt.stage.Settled? then Some(AttemptUnusable)
    else if !A.ExecutionRefs(attempt) then Some(NilDereference)
    else if A.Observation !in attempt.sidecars || !o.applied then Some(AttemptUnusable)
    else None
  }

  function NextWith(f: Fact, s: RunState, added: map<Slot, nat>, l: Option<Lifecycle>, now: int): Fact {
    Fact(f.intent, f.revision + 1, s, f.sidecars + added, if l.Some? then l else f.lifecycle, now)
  }

  function StartSidecars(d: Digests, attempt: A.Fact): map<Slot, nat> {
    map[StartAttempt := d.attempt(attempt), StartOperation := d.operation(attempt), StartRuntime := d.refs(attempt)]
  }

  predicate HoldsStart(f: Fact, d: Digests, attempt: A.Fact) {
    START <= f.sidecars.Keys && f.sidecars[StartAttempt] == d.attempt(attempt)
      && f.sidecars[StartRuntime] == d.refs(attempt)
  }

  /** Each stored fact is in a later state than the one before, until cleanup repeats itself. */
  lemma {:induction false} HistoryClimbs(h: seq<Fact>, i: nat, j: nat)
    requires History(h) && i < j < |h|
    ensures Rank(h[i].state) < Rank(h[j].state) || h[i].state.TerminalCleanup?
  {
    assert Transition(h[j - 1], h[j]);
    if i < j - 1 {
      HistoryClimbs(h, i, j - 1);
    }
  }

  /** A settled attempt has no successor, so reading it again finds it unchanged. */
  lemma SettledIsFinal(ah: seq<A.Fact>, i: nat, j: nat)
    requires A.History(ah) && i <= j < |ah| && ah[i].stage.Settled?
    ensures i == j
  {
    A.HistoryClimbs(ah, i, j);
  }

  /**
   ConfirmRunStartedV3.  A start that succeeds returns a stored fact at running or beyond.  The runtime is
   told to start only on a stored start plan that holds the very attempt it is told of, settled, prepared and
   observed.  The references of an attempt settled without preparation are dereferenced: that happens
   exactly if the attempt read for a pending or start-planned run is such a one.  Drift is reported only if
   the stored start plan really holds another attempt.
   */
  method ConfirmStarted(h: seq<Fact>, ah: seq<A.Fact>, d: Digests, o: StartOracle)
      returns (end: StartEnd, calls: seq<StartCall>)
    requires History(h) && A.History(ah) && o.read < |h| && o.first <= o.second < |ah|
    ensures end.Started? ==>
      && end.fact in h && Rank(end.fact.state) >= Rank(Running)
      && (end.fact == h[o.read] || Successor(h[o.read], end.fact))
    ensures |calls| <= 1 && forall c :: c in calls ==>
      && c.stored in h && c.stored.state.StartPlanned? && c.attempt in ah && Confirmable(c.attempt)
      && HoldsStart(c.stored, d, c.attempt)
    ensures var attempt := ah[if h[o.read].state.Pending? then o.first else o.second];
            end.NilDereference? <==>
              && (h[o.read].state.Pending? || h[o.read].state.StartPlanned?) && o.bound
              && attempt.stage.Settled? && A.PreparedAttempt !in attempt.sidecars
    ensures end.Drifted? ==> exists f :: f in h && f.state.StartPlanned? && !HoldsStart(f, d, ah[o.second])
  {
    calls := [];
    var at := o.read;
    if ah[o.first].stage.Settled? {
      SettledIsFinal(ah, o.first, o.second);
      A.SettledRefsIffPrepared(ah, o.first);
    }
    if ah[o.second].stage.Settled? {
      A.SettledRefsIffPrepared(ah, o.second);
    }
    hide A.History, A.ExecutionRefs;
    if h[at].state.Pending? {
      var error := StartAttemptError(ah[o.first], o);
      if error.Some? {
        return error.value, calls;
      }
      var next := NextWith(h[at], StartPlanned, StartSidecars(d, ah[o.first]), None, o.now);
      AdvanceMovesOn(h, at, next, o.plan);
      match AdvanceAt(h, at, next, o.plan)
      case None => return NotStored, calls;
      case Some(j) =>
        HistoryClimbs(h, at, j);
        at := j;
    }
    if at > o.read {
      HistoryExtends(h, o.read, at);
    }
    if Rank(h[at].state) >= Rank(Running) {
      return Started(h[at]), calls;
    }
    if !h[at].state.StartPlanned? {
      return NotReady, calls;
    }
    var error := StartAttemptError(ah[o.second], o);
    if error.Some? {
      return error.value, calls;
    }
    HistoryValid(h, at);
    if !HoldsStart(h[at], d, ah[o.second]) {
      return Drifted, calls;
    }
    if !o.alreadyStarted {
      calls := [StartCall(h[at], ah[o.second])];
    }
    if o.running.None? || !o.running.value.phase.PhaseRunning? {
      return RuntimeRefused, calls;
    }
    var next := NextWith(h[at], Running, map[StartConfirmation := o.confirmation], o.running, o.now);
    AdvanceMovesOn(h, at, next, o.run);
    match AdvanceAt(h, at, next, o.run)
    case None => return NotStored, calls;
    case Some(j) =>
      HistoryClimbs(h, at, j);
      HistoryExtends(h, o.read, j);
      return Started(h[j]), calls;
  }
}
